# Verification of the concurrent lab programs

A Dafny model of the programs in this repository that hold real concurrency or a real algorithm, with machine-checked
proofs about them:

* **The night shift of the Bitronka shop** (`L3/PolishLab/sop-shop.c`, `RetakePrep/Bitronka-L3/sop-shop.c`). Workers
  draw two shelves, lock both robust mutexes in index order and exchange products that are out of order; a manager scans
  the shelves without locks and ends the shift. `NightShift.dfy` is a transition system at the granularity of single
  loads, stores and mutex operations, in which any worker may be killed at any point. Both programs are instances: one
  compares inside the locks, the other before them.
* **The bingo game over message queues** (`L2/tmp_bingo.c`). Bounded queues with priorities, one-shot notification,
  a handler that registers again and drains, and a handler that reaps behind coalescing SIGCHLD; handlers interrupt the
  main program and each other between any two steps.
* **The railway network and its route search** (`RetakePrep/Trains-L3/railway.c`, `sop-railway.c`, `railway.h`). The
  adjacency structure, the loader, and the first-in first-out relaxation search with its walk back.
* **My ship sails** (`L1/ShipGame/ships.c`). Shuffling, dealing, and the ring in which everybody sends a card and then
  blocks to receive one.
* **The FIFO writers** (`L1/fifo_bulk_writer.c`), **the condition-variable completion** (`L3/notes/exe1.c`) and **the
  worker pool** (`L2/exercise2.c`).

## How to read it

A concurrent program is a datatype for its state, an `Action` for every atomic step, `Enabled` and `Apply`; a run is a
schedule that is `Legal`, and `After` is where it leads. `rand()` and the scheduler are the choice of the next action.
An invariant is kept by every step (`StepKeepsInv`) and so by every run (`RunKeepsInv`); the theorems quantify over all
initial states, all numbers of processes and all runs. Fixed sizes (52 cards, queues of 10, PIPE_BUF, n children) are
parameters wherever the code's own guards allow other values.

What a step does is also told apart from the steps themselves, from the schedule: `BingoRecord` (numbers broadcast, reports
of the children), `ShipGameRecord` (cards sent and received, wins, the end), `PoolRecord` and `PoolSignals` (tasks in hand,
signals) and `NightShiftEnd` (flag, leaving, pairs drawn, rounds) say what a whole schedule makes of its own arguments.

What the programs do in place is done in place: `SharedShop.Memory`, `BingoParlour.Parlour`, `ShipTable.Table`,
`SharedMemory.Memory`, `PoolInPlace.Workshop`, `RailwayNetwork.Network`, `RailwayFinder.Tables` and the methods of
`FifoFrames`, `Shuffle`, `Dealing` and `ShipStart` are classes and loops over arrays and fields, each proved equal, step
by step or as a whole, to the functions the theorems are about.

Where a promise of the code does not hold, the model keeps the code as it is, exhibits a run that breaks it, and proves
exactly when it holds:

* the manager's verdict can be wrong about a shop that is being rearranged (`OvertakenScanMisjudges`,
  `HalfDoneSwapMisleads`). In a night without losses it can be so exactly when there is a worker and two products that are
  not neighbours are out of order at the start (`VerdictCanBeWrongIff`). A single scan is exact if nothing is stored behind
  its back, and then final if no swap is in flight; and whatever is stored meanwhile, an accepting scan that has loaded
  1, 2, ..., N is right and final (`TellingScanIsRight`);
* comparing before locking can undo a swap and raise the disorder (`RaceUndoesASwap`): exactly when there are at least two
  workers and something to sort (`CommitCanRaiseIff`);
* the route search calls itself Dijkstra's but never queues an improved station again (`StaleSearchMisleads`). The order
  in which it queues stations does not depend on lengths (`OrderIgnoresLengths`). The length it records for a station is
  the least one of the live walks that follow this order except for their last connection (`RecordedIsLeast`); so for each
  destination the recorded length, and with it the route, is that of a shortest walk exactly when one of the shortest
  walks follows the order in this way (`RouteIsExactIff`), whether or not anything goes stale (`StaleSearchCanBeExact`).
  A route can also be shortest by accident, at a recorded length that is wrong (`RightByAccident`). From a station to
  itself the answer is never zero connections (`NoWayToStay`), and -1 exactly when no way leads back (`WayBackIff`);
* connection indices leave their tables from 32 stations on (`IndicesFitIff`), a line that joins a station to itself spoils
  the row (`AddKeepsValidIff`), and the initialisation leaves the neighbour counts of an object that exists already
  standing, so it gives a valid network exactly when they are all zero (`InitialisedIsValidIff`);
* a bingo child's report can be refused exactly when the report queue is smaller than the number of children
  (`FailsIffTooManyChildren`), and the parent's last send can block for ever exactly when there is a child and a place for
  its report (`LastSendCanBlock`, `ParentCanBeStrandedIff`), so in every game the program can start;
* `finished_children` and `ready` of `exe1.c` are never initialised and its shared memory is never unlinked, so a second
  execution finds the leftovers of the first: the wait is safe, and ends, only for some leftovers, which are given
  exactly (`WaitIsSafeIff`, `CanEndIff`). Zeroed memory is among them, unless there are no children. The 32-bit counter
  never overflows exactly when the sum of the pids fits it (`CounterFitsIff`);
* a SIGINT can leave workers behind in every pool that has any (`InterruptStrands`, `InterruptCanStrandIff`); at rest all
  have left exactly when no task was left unsent (`EverybodyLeavesIff`).

Where code and comments differ the code is followed: `railway.h` promises maximal lengths for missing connections, but
the initialisation writes none; it calls the found way shortest, see above; and `sop-shop.c` of `Bitronka-L3` numbers its
shelf mutexes from one.

Semantics of robust mutexes, condition variables, `mq_notify()`, `mq_receive()`, `waitpid()` and `write()` are those of
POSIX.1-2017. `dafny verify dfyconfig.toml` checks everything.

## Model

| member | source | states |
|---|---|---|
| Shuffle.FillArray | L3/PolishLab/sop-shop.c:78-84 | The loop fills the shelves, or the deck, with 1..N. |
| Shuffle.ShuffleInPlace | L3/PolishLab/sop-shop.c:61-68 | The in-place exchange loop yields the arrangement of the choice sequence that the draws, reduced modulo i + 1, stand for. |
| Shuffle.ExchangedIsAPermutation | L1/ShipGame/ships.c:72-79 | Whatever the choices, the shuffled deck holds the cards it held before. |
| Shuffle.ShuffleIsABijection | L3/PolishLab/sop-shop.c:61-68 | For distinct elements an arrangement is the outcome of some choice sequence with 0 <= j <= i if and only if it is a permutation, and then of exactly one. |
| Shuffle.StayingChangesNothing | L3/PolishLab/sop-shop.c:61-68 | If every position draws itself, nothing moves. |
| Shuffle.OneChoiceSwaps | L3/PolishLab/sop-shop.c:61-68 | If one position alone draws another, these two are exchanged and nothing else moves. |
| Shuffle.ChoicesActInTurn | L1/ShipGame/ships.c:72-79 | Choices act one after the other, from the top: any first part of them with everybody else staying, then the rest. With the two rows above this determines every outcome. |
| Inversions.OrderingSwapLowers | L3/PolishLab/sop-shop.c:152-153 | Exchanging any out-of-order pair, adjacent or not, strictly lowers the number of inversions. |
| NightShiftSafety.AdvanceKeepsSound | L3/PolishLab/sop-shop.c:149-158 | No worker's step disturbs what another worker has loaded from the shelves that it has locked. |
| NightShiftSafety.RunKeepsInv | L3/PolishLab/sop-shop.c:139-161 | Mutual exclusion on shelves and agreement of the swap temporaries with them hold in every state of every run of either program, whoever is killed and wherever. |
| NightShiftStock.CommitSwapsView | L3/PolishLab/sop-shop.c:26-33 | The first of a swap's two stores exchanges two products in the array read with swaps in flight completed. |
| NightShiftStock.QuietStepKeepsView | L3/PolishLab/sop-shop.c:142-160 | Every other step, the second store and all deaths elsewhere included, leaves that completed array alone. |
| NightShiftStock.LossCopies | L3/PolishLab/sop-shop.c:105-118 | A death between the two stores leaves the upper shelf with a copy of the lower one, although the mutexes are recovered. |
| NightShiftStock.StockKeptIffNoLoss | L3/PolishLab/sop-shop.c:149-158 | In every run of either program the completed array is a permutation of 1..N if and only if no worker died between its two stores. |
| NightShiftStock.CommitLowersInversions | L3/PolishLab/sop-shop.c:152-153 | Under any interleaving every swap committed under the locks strictly lowers the inversion count. |
| NightShiftStock.SwapsLowerInversions | L3/PolishLab/sop-shop.c:142-160 | In every run without a death between two stores the swaps made are at most the inversions removed. |
| NightShiftStock.SwapBudget | L3/PolishLab/sop-shop.c:142-160 | Any run makes at most N(N-1)/2 swaps, and as many more for each death between two stores. |
| NightShiftProgress.SomebodyCanWork | L3/PolishLab/sop-shop.c:146-150 | While one worker is alive some live worker can step: following the owner of a wanted mutex goes strictly up in index order, and dead owners block nobody. |
| NightShiftProgress.NoRunDeadlocks | RetakePrep/Bitronka-L3/sop-shop.c:111-120 | No reachable state of either program has all live workers blocked. |
| NightShiftProgress.RoundRunsAlone | L3/PolishLab/sop-shop.c:149-158 | A worker whose mutexes are open finishes its round unaided, and swaps a pair that it finds out of order. |
| NightShiftProgress.UnsortedCanImprove | L3/PolishLab/sop-shop.c:142-160 | With nobody in a round an idle worker has a round that swaps once and lowers the inversion count, unless the shelves are sorted. |
| NightShiftProgress.TenRoundShiftEnds | RetakePrep/Bitronka-L3/sop-shop.c:102-126 | Every run of the ten-round version has at most 121 steps a worker, stops only when all have left or died, and leaves the stock intact exactly when nobody died between two stores. |
| NightShiftProgress.CommitLowersIffOutOfOrder | RetakePrep/Bitronka-L3/sop-shop.c:113-117 | A committed swap lowers the inversion count if and only if the pair is still out of order then; comparing before locking does not ensure it, see `NightShiftRace.CommitCanRaiseIff`. |
| NightShiftSorting.CanAlwaysBeSorted | L3/PolishLab/sop-shop.c:142-160 | From any reachable state of a shift that is on, with swaps in flight, mutexes held and all workers but one possibly dead, some continuation without a death ends with sorted shelves, nobody in a round and no swap in flight. |
| NightShiftRace.RaceUndoesASwap | RetakePrep/Bitronka-L3/sop-shop.c:113-117 | With two workers and unsorted shelves there is a run in which both find the same pair out of order and the second swap undoes the first: a committed swap that raises the inversion count. |
| NightShiftRace.CommitCanRaiseIff | RetakePrep/Bitronka-L3/sop-shop.c:107-122 | When comparing comes before locking, some run has a swap that raises the inversion count if and only if there are at least two workers and the shelves are not sorted. |
| NightShiftManager.UndisturbedVerdictIsExact | L3/PolishLab/sop-shop.c:86-94 | A scan behind whose back no shelf is stored to accepts if and only if the shelves are sorted when it ends. |
| NightShiftManager.OrderIsAbsorbing | L3/PolishLab/sop-shop.c:152-155 | Once sorted with no swap in flight the shelves are never written again, in any run. |
| NightShiftManager.AcceptedNightIsInOrder | L3/PolishLab/sop-shop.c:120-137 | After an undisturbed accepting scan of a night without losses the shelves are exactly 1..N if and only if no swap is in flight, and then they are 1..N in every later state and at the final print. |
| NightShiftManager.OvertakenScanMisjudges | L3/PolishLab/sop-shop.c:86-94 | A run from 2,3,1,... in which the scan is overtaken by a swap, accepts, and leaves the shelves out of order. |
| NightShiftManager.HalfDoneSwapMisleads | L3/PolishLab/sop-shop.c:127-130 | A run from 3,1,2,... in which nothing is stored during the scan, which accepts a half-done swap that later leaves disorder. |
| NightShiftVerdict.VerdictCanBeWrongIff | L3/PolishLab/sop-shop.c:86-137 | Told from the shelves before the shift: some run without losses has the manager accept what is out of order, swaps in flight completed or nothing in flight at all, if and only if there is a worker and two products two or more shelves apart are out of order. |
| NightShiftVerdict.HarmlessIsNotMisjudged | L3/PolishLab/sop-shop.c:86-94 | While only neighbours are out of order and none of those has been touched or passed, no continuation without losses ends in a wrong verdict. |
| NightShiftVerdict.FarPairMisleads | L3/PolishLab/sop-shop.c:127-160 | From any moment with everybody idle and two products out of order that are not neighbours, one worker's rounds and one scan lead to a wrong verdict. |
| FarInversions.FarPairGoesOn | L3/PolishLab/sop-shop.c:152-153 | While two products out of order are not neighbours, some swap of the workers leaves such a pair, until all that is out of order is three neighbouring shelves. |
| NightShiftWitness.TellingScanIsRight | L3/PolishLab/sop-shop.c:86-137 | Whatever is stored while it scans: in a night without losses an accepting scan that has loaded 1, 2, ..., N leaves shelves 1..N with no swap in flight, which stay 1..N in every later state and at the final print. |
| NightShiftEnd.FlagIsDownIffStopped | L3/PolishLab/sop-shop.c:127-134 | The run flag is down, and the manager done, exactly when the manager has stopped the shift. |
| NightShiftEnd.NobodyLeavesEarly | L3/PolishLab/sop-shop.c:142 | Before that no worker leaves. |
| NightShiftEnd.ClosedShiftEnds | L3/PolishLab/sop-shop.c:127-161 | After it nobody draws shelves; every further run is at most as long as the rounds under way then, and the leaving, take; and where it rests every worker has left or died, no swap is in flight, and the stock is intact exactly when nobody died between two stores. |
| NightShiftEnd.GoneIffTold | L3/PolishLab/sop-shop.c:139-161 | In either program a worker has left exactly by its own leaving, and is dead exactly when it was killed. |
| NightShiftEnd.DeathLeavesItsLocks | L3/PolishLab/sop-shop.c:105-118 | A death leaves for recovery exactly the mutexes that the place in the round says are held. |
| NightShiftEnd.SwapIsOfLastDraw | L3/PolishLab/sop-shop.c:143-155 | In either program a swap exchanges the two shelves that its worker drew last, and no others. |
| NightShiftEnd.LeavesAfterTenRounds | RetakePrep/Bitronka-L3/sop-shop.c:107-125 | A worker of the ten-round version that leaves has begun exactly ten rounds. |
| SharedShop.IsSorted | L3/PolishLab/sop-shop.c:86-94 | Undisturbed, the adjacent scan decides sortedness in both directions. |
| SharedShop.Memory.constructor | L3/PolishLab/sop-shop.c:241-251 | Filling and shuffling in place gives an initial state of the transition system, for any draws. |
| SharedShop.Memory.Work | L3/PolishLab/sop-shop.c:149-158 | Each access to the shared arrays is the corresponding step of the transition system. |
| SharedShop.Memory.Orphan | L3/PolishLab/sop-shop.c:105-118 | A death leaves exactly the dead worker's mutexes for recovery. |
| SharedShop.Memory.Perform | L3/PolishLab/sop-shop.c:120-161 | Any step of any process, in place, is the step of the transition system. |
| SharedShop.Memory.Play | L3/PolishLab/sop-shop.c:252-256 | A whole night in place ends in the state the schedule leads to, so every theorem about runs is about the array. |
| BingoSafety.InsertAdds | L2/tmp_bingo.c:91-97 | Queueing by priority adds exactly the report sent. |
| BingoSafety.InsertIsFair | L2/tmp_bingo.c:91-97 | A report goes behind all others of its priority, and the queue stays in priority order. |
| BingoSafety.QueueIsPrioritised | L2/tmp_bingo.c:45-58 | In every state of every run the handler reads all bingos before any time-out. |
| BingoSafety.StepKeepsInv | L2/tmp_bingo.c:30-128 | Every step, handlers included, keeps the notification, reaping and conservation invariants, and fails only by a report to a full queue. |
| BingoSafety.NoLostNotification | L2/tmp_bingo.c:30-59 | After the first registration exactly one of registered, notification pending, handler about to register holds, so registering never fails; with neither a notification nor the handler about, the reports printed are exactly the reports sent. |
| BingoSafety.EveryChildIsReaped | L2/tmp_bingo.c:61-128 | `children_left` is always the number of children counted and not reaped; a zombie has a SIGCHLD pending or its handler running; no child exits before the parent's first number; the parent finishes only when all children have reported, exited and been reaped. |
| BingoRecord.NumbersAreBroadcast | L2/tmp_bingo.c:100-111 | In every state of every run the numbers the children have taken, in order, then those queued, then the one about to be sent, are exactly the numbers the parent drew while it counted a child, in order. |
| BingoRecord.ChildrenTellTheTruth | L2/tmp_bingo.c:79-98 | In every state of every run each child is what the life and number it was created with and the numbers it has taken make it: it reports a bingo exactly when its number is the last it took, and else its index after exactly its whole life. |
| BingoCapacity.FailsIffTooManyChildren | L2/tmp_bingo.c:91-97 | Some run fails, by a report to a full queue, if and only if there are more children than places in the report queue. |
| BingoCapacity.LastSendCanBlock | L2/tmp_bingo.c:103-109 | For any number of children above zero and any queues with places: a run without failure in which every child has reported and been reaped, and the parent is nevertheless blocked for ever in its last send. |
| BingoCapacity.ParentCanBeStrandedIff | L2/tmp_bingo.c:100-111 | Whatever the size of the queues, some run without failure leaves the unfinished parent with nothing that can ever happen if and only if there is a child and a place for its report. |
| BingoCapacity.StuckIffOver | L2/tmp_bingo.c:100-111 | In a reachable state without failure nobody can step if and only if the parent has finished or is blocked in a send with all children reaped and nothing pending: there is no other deadlock. |
| BingoParlour.LifeOfAChild | L2/tmp_bingo.c:79-98 | A child takes numbers up to the first that is its own, and else exactly as many as it has lives; it reports its number in the first case and its own index in the second. |
| BingoParlour.ChildWork | L2/tmp_bingo.c:79-98 | The child's loop gives that report after that many numbers, and agrees with the steps of the transition system. |
| BingoParlour.Parlour.Advance | L2/tmp_bingo.c:100-128 | The main program's steps on `children_left` and the number queue, in place. |
| BingoParlour.Parlour.SendReport | L2/tmp_bingo.c:91-97 | A non-blocking send in place: refusal when full, notification when empty and registered, queueing by priority. |
| BingoParlour.Parlour.Perform | L2/tmp_bingo.c:30-128 | Any step of any process, in place, is the step of the transition system. |
| BingoParlour.Parlour.Play | L2/tmp_bingo.c:155-166 | A whole game in place ends in the state the schedule leads to. |
| BingoParlour.Parlour.MqHandler | L2/tmp_bingo.c:30-59 | Run to its end, the notification handler registers again and prints the whole queue in queue order; its steps are a run of the transition system. |
| BingoParlour.Parlour.SigchldHandler | L2/tmp_bingo.c:61-77 | Run to its end, the child handler reaps every zombie, in any order, and takes exactly their number off `children_left`, however many exits one signal stood for. |
| Railway.EncodeIsInjective | RetakePrep/Trains-L3/railway.c:84 | Different station pairs have different connection indices. |
| Railway.ConvertIdxToConnection | RetakePrep/Trains-L3/railway.c:86-90 | The decoder finds the pair an index encodes, and it is the only one. |
| Railway.IndicesFitIff | RetakePrep/Trains-L3/railway.c:108 | The stations that the range check admits all have indices inside the tables if and only if the station count is at most 31. |
| Railway.PairFitsIff | RetakePrep/Trains-L3/railway.c:118-119 | Both indices of a pair lie inside the tables if and only if both stations are among the first 32. |
| Railway.RowHasRoom | RetakePrep/Trains-L3/railway.c:114-117 | A duplicate-free row always has room for another neighbour, by counting. |
| Railway.AddKeepsValidIff | RetakePrep/Trains-L3/railway.c:106-122 | An addition keeps rows duplicate-free, in range and symmetric, with equal lengths both ways, if and only if it is refused or joins two different stations. |
| Railway.AddKeepsSound | RetakePrep/Trains-L3/railway.c:106-122 | Every addition, joining a station to itself included, keeps all rows inside the tables, in range and symmetric, and lengths equal both ways. |
| Railway.AddIsMapUpdate | RetakePrep/Trains-L3/railway.c:106-122 | An addition is refused exactly when a station is out of range or the pair is linked already; otherwise it links the pair both ways at that length, two equal stations included, and changes no other pair. |
| Railway.AddRaisesDegrees | RetakePrep/Trains-L3/railway.c:114-117 | Neighbour counts sum to twice the accepted additions. |
| Railway.InitialisedIsValidIff | RetakePrep/Trains-L3/railway.c:50-57 | On a shared object left by an earlier execution the initialisation yields a valid network if and only if all the old neighbour counts are zero. |
| RailwayNetwork.Network.constructor | RetakePrep/Trains-L3/railway.c:50-57 | A fresh zeroed object is the network without stations and connections. |
| RailwayNetwork.Network.Initialise | RetakePrep/Trains-L3/railway.c:50-57 | On any object the initialisation resets the station count and the rows, in place, and leaves neighbour counts, lengths and damage standing. |
| RailwayNetwork.Network.ConnectionExists | RetakePrep/Trains-L3/railway.c:92-104 | The row search answers membership in both directions, with the first place or -1. |
| RailwayNetwork.Network.AddConnection | RetakePrep/Trains-L3/railway.c:106-122 | The in-place addition computes the new network and code that the lemmas about additions describe, and reports `strayed` exactly for a pair in range whose stores would leave the tables. |
| RailwayNetwork.LineEffect | RetakePrep/Trains-L3/sop-railway.c:82-88 | A line is accepted exactly when it names a new pair in range; the network then has precisely the connections of the lines read, and is free of loops exactly when they are. |
| RailwayNetwork.LinesBuild | RetakePrep/Trains-L3/sop-railway.c:54-89 | Good lines, however many, build a network with exactly their connections and lengths and two row entries for each. |
| RailwayNetwork.LoadLines | RetakePrep/Trains-L3/sop-railway.c:54-89 | The loading loop succeeds if and only if every line is usable, has its place in the tables and joins a pair not joined before, and leaves the network those lines build; else it names the first line that is not so, and what is wrong with it. |
| RailwayNetwork.CreateRailway | RetakePrep/Trains-L3/sop-railway.c:21-93 | For any station count: the loader succeeds if and only if the file is good and no line goes beyond the tables; the network then has the file's connections, their lengths, and no others, and is valid exactly when no line joins a station to itself. Otherwise the verdict is the first complaint: a count, or the first bad line and its first fault. |
| RailwaySearch.WalkExtends | RetakePrep/Trains-L3/railway.c:179-184 | A live walk extends over a live connection, longer by its length. |
| RailwaySearchInvariant.RelaxKeepsCore | RetakePrep/Trains-L3/railway.c:165-192 | A turn of the inner loop keeps: queue without duplicates but for the start, distances that are lengths of live walks, predecessor links that lower the distance. |
| RailwaySearchInvariant.VisitKeepsInv | RetakePrep/Trains-L3/railway.c:160-193 | A turn of the outer loop keeps that, and every station taken has offered its distance to all its neighbours. |
| RailwaySearchInvariant.QueueIsShort | RetakePrep/Trains-L3/railway.c:187-191 | The queue holds every station at most once and the start once more, so it stays inside its array. |
| RailwayRoutes.UnreachedIffNoWalk | RetakePrep/Trains-L3/railway.c:195-196 | For all positive lengths a station stays without a distance if and only if no live walk leads there. |
| RailwayRoutes.TurnsAreFew | RetakePrep/Trains-L3/railway.c:160-162 | The search dequeues at most once per reachable station and once more. |
| RailwayRoutes.ChainIsAWalk | RetakePrep/Trains-L3/railway.c:181-183 | Predecessor links always lead back to the start along a live walk no longer than the recorded distance, and of exactly that length and hop count while nothing is stale. |
| RailwayRoutes.ShortestIffNothingTense | RetakePrep/Trains-L3/railway.c:179-184 | All final distances are shortest if and only if no live connection would still improve one. |
| RailwayRoutes.FreshIffTakenAtShortest | RetakePrep/Trains-L3/railway.c:159-193 | No station is improved after it was taken if and only if every station is taken at the length of a shortest live walk. |
| RailwayRoutes.TraceReachesStartIff | RetakePrep/Trains-L3/railway.c:198-207 | The walk back begins at the start if and only if the recorded hops are the number of links, which stale searches break. |
| RailwayRoutes.FreshRouteIsShortest | RetakePrep/Trains-L3/railway.c:153-207 | When no taken station is improved the returned route is a live walk from start to destination of exactly the returned number of connections and of minimal length. |
| RailwayQueueOrder.OrderIgnoresLengths | RetakePrep/Trains-L3/railway.c:160-192 | Networks that differ only in their lengths have their stations queued in the same order. |
| RailwayQueueOrder.SearchFollowsOrder | RetakePrep/Trains-L3/railway.c:160-192 | The search queues the stations in that order, which rows, damage and start alone determine. |
| RailwayQueueOrder.FreshIffShortestWaysRise | RetakePrep/Trains-L3/railway.c:168-183 | No station is improved after it was taken if and only if every station that can be reached has a shortest live walk along which the places in that order strictly rise. |
| RailwayExact.RecordedIsLeast | RetakePrep/Trains-L3/railway.c:160-193 | For all positive lengths: the recorded distance of a station is the least length of a live walk along which the places in that order rise, its last connection excepted. |
| RailwayExact.RecordedIsShortestIff | RetakePrep/Trains-L3/railway.c:168-184 | For each station the recorded distance is that of a shortest live walk if and only if one of the shortest walks rises in this way. |
| RailwayExact.RouteIsExactIff | RetakePrep/Trains-L3/railway.c:153-207 | For each destination, stale or not: the returned route is a live walk of the returned number of connections and of the recorded length, and no live walk is shorter, if and only if one of the shortest walks rises in this way. |
| RailwayUniform.UniformIsFresh | RetakePrep/Trains-L3/railway.c:160-193 | On networks of one length nothing goes stale, and the queue is monotone in distance but for the second place of the start. |
| RailwayUniform.UniformRouteIsHopMinimal | RetakePrep/Trains-L3/railway.c:153-207 | There the returned route needs the fewest connections of all live walks. |
| RailwayTurns.SearchedIsFinished | RetakePrep/Trains-L3/railway.c:160-193 | The search in at most 64 turns, which also covers equal start and destination, is for different stations the search that the theorems are about. |
| RailwayFinder.Tables.LookAt | RetakePrep/Trains-L3/railway.c:167-191 | The inner loop's body on the arrays is one relaxation. |
| RailwayFinder.Tables.ExploreAll | RetakePrep/Trains-L3/railway.c:160-193 | The two nested loops compute the search that the theorems are about, and stay inside the arrays. |
| RailwayFinder.GatherPath | RetakePrep/Trains-L3/railway.c:198-205 | The walk back fills `path` with the connection indices of the traced route, unless a link lies beyond the table. |
| RailwayFinder.FindShortestWay | RetakePrep/Trains-L3/railway.c:132-208 | The whole function: -1 when a station is out of range, otherwise what the finished search holds; from a station to itself never 0, and -1 exactly when no way of at least one connection leads back. |
| RailwayFinder.AnswerIsRight | RetakePrep/Trains-L3/railway.c:195-207 | -1 exactly when no live walk exists; a path that spells a shortest live walk whenever a shortest walk to this destination follows the queue order but for its last connection, which is exactly when route and recorded length are both right; and on networks of one length a path of fewest connections. |
| RailwayFinder.LoadedIsSearchable | RetakePrep/Trains-L3/sop-railway.c:74-80 | What the loader accepts is a network the search is proved for, if no line joins a station to itself. |
| RailwayExample.StaleSearchMisleads | RetakePrep/Trains-L3/railway.c:153-207 | A network built by four additions on which the search records 105 where 7 is shortest, and traces a route that starts elsewhere. |
| RailwayExample.StaleSearchCanBeExact | RetakePrep/Trains-L3/railway.c:153-207 | The same network, searched for the station that goes stale itself: the route is exact, though not every station can be followed in order. |
| RailwayAccident.RightByAccident | RetakePrep/Trains-L3/railway.c:179-184 | A network built by six additions on which the route returned is the shortest, of length 7, and the search has recorded 25 for it. |
| RailwaySameStation.NoWayToStay | RetakePrep/Trains-L3/railway.c:154-156 | From a station to itself the search never ends at zero connections, in any network, though staying is the shortest way. |
| RailwaySameStation.WayBackIff | RetakePrep/Trains-L3/railway.c:154-196 | From a station to itself the answer is -1 if and only if no live walk of at least one connection leads back. |
| Dealing.DealRandomCards | L1/ShipGame/ships.c:97-109 | The hand gets, in order, the cards in the slots at which the draws found one; the deck loses these and no others; and together they are what the deck held. |
| Dealing.IsWinning | L1/ShipGame/ships.c:111-118 | Comparing neighbours decides whether all cards are of one suit. |
| ShipGameProgress.DealHands | L1/ShipGame/ships.c:308-311 | Dealing in turn gives every player a full hand of the cards its draws found, and loses no card. |
| ShipStart.ShuffledDeck | L1/ShipGame/ships.c:299-301 | Filling and shuffling in place leaves the arrangement of 1..52 that the draws choose, and so exactly the 52 cards. |
| ShipStart.StartGame | L1/ShipGame/ships.c:299-313 | Filling, shuffling and dealing ends in a state the ring can start from, every hand holding the cards its draws found in the shuffled deck, with the 52 cards divided between the hands and the deck. |
| ShipGame.SearchStaysInside | L1/ShipGame/ships.c:155-158 | Before receiving there is a gap, so the unbounded slot search stops inside the hand. |
| ShipGame.StepKeepsInv | L1/ShipGame/ships.c:120-173 | Every step keeps hands full before sending and one short before receiving, and keeps the cards in play. |
| ShipGame.EveryCardOnce | L1/ShipGame/ships.c:120-173 | From a division of the 52 cards between deck and hands on, deck, hands and pipes together hold each card exactly once in every state of every run. |
| ShipStart.PlayOut | L1/ShipGame/ships.c:313-314 | The game played in place from what `StartGame` leaves keeps each of the 52 cards exactly once among deck, hands and pipes. |
| ShipGame.WinsAreEarned | L1/ShipGame/ships.c:161-166 | A win is announced only on a full hand of real cards of one suit. |
| ShipGameRecord.WinIsAnnouncedIff | L1/ShipGame/ships.c:161-165 | In every state of every run a receipt is announced if and only if the hand is then of one suit; nothing else is announced. |
| ShipGameRecord.EveryWinIsAnnounced | L1/ShipGame/ships.c:161-165 | The announcements are, in order, the receipts that made a hand one of a single suit, told from the hands. |
| ShipGameRecord.OverIffWon | L1/ShipGame/ships.c:120-173 | The game is over exactly when the parent has stopped it; before, it can be stopped exactly when a receipt has won; after, nobody plays. |
| ShipGameRecord.GameCanEndIff | L1/ShipGame/ships.c:120-173 | Some run ends the game if and only if some run makes a hand one of a single suit. |
| ShipGameRecord.CardsArriveInOrder | L1/ShipGame/ships.c:125-160 | The cards that turn up in a player's hand are those the player before it discarded, in the same order, but for the ones still in the pipe. |
| ShipGameRecord.OneSlotChanges | L1/ShipGame/ships.c:127-158 | Discarding empties its slot, receiving fills the gap, and no other slot of any hand changes. |
| ShipGame.ReadsFromBehind | L1/ShipGame/ships.c:208-241 | The pipe a player reads is that of the player before it, modulo their number. |
| ShipGameProgress.SomebodyCanPlay | L1/ShipGame/ships.c:125-170 | Until the game is stopped some player can send or receive: blocked readers never close the ring. |
| ShipGameProgress.PipesStayShort | L1/ShipGame/ships.c:208-241 | Cards in flight equal waiting players, and no pipe ever holds more cards than there are players. |
| ShipGameProgress.PipeBalance | L1/ShipGame/ships.c:208-241 | A pipe holds what its writer has sent less what the next player has received. |
| ShipGameProgress.DriftIsBounded | L1/ShipGame/ships.c:122-172 | In every run the numbers of cards sent by any two players differ by at most the number of players less one. |
| ShipTable.FindGap | L1/ShipGame/ships.c:156-157 | The slot search finds the first empty slot. |
| ShipTable.PutIn | L1/ShipGame/ships.c:155-161 | A received card goes to the first empty slot, and the winning test sees the hand with it. |
| ShipTable.Table.Perform | L1/ShipGame/ships.c:125-170 | Sending and receiving in place are the steps of the transition system. |
| ShipTable.Table.Play | L1/ShipGame/ships.c:313-314 | A whole game in place ends in the state the schedule leads to. |
| FifoFrames.FramesCanBeToldApart | L1/fifo_bulk_writer.c:22-42 | For any files, any interleaving and distinct pids: the frames with a finished writer's pid hold its file followed by zeros, one frame for each of its messages: none for an empty file, no extra one for an exact multiple of m. |
| FifoFrames.MessagesRoundUp | L1/fifo_bulk_writer.c:11 | The number of messages of a file is its length divided by m, rounded up, and the padding makes up the difference. |
| FifoFrames.NothingOutOfOrder | L1/fifo_bulk_writer.c:29-41 | At every moment of every run what the stream holds of a writer is a prefix of that. |
| FifoFrames.NoStrangers | L1/fifo_bulk_writer.c:26 | No frame in the stream carries a pid that no writer has. |
| FifoFrames.FileIsRecoveredIff | L1/fifo_bulk_writer.c:33-35 | Dropping the padding gives the file back if and only if it does not end in a zero byte. |
| FifoFrames.RunsAreCounted | L1/fifo_bulk_writer.c:29-41 | Every run of the writers to the end takes the same number of reads and writes. |
| FifoFrames.FramedIsHeard | L1/fifo_bulk_writer.c:29-41 | What one writer alone puts behind whole frames adds exactly its padded file. |
| FifoFrames.TextFile.Read | L1/fifo_bulk_writer.c:30 | A read fills the message part of the reused buffer with the next bytes and leaves the rest. |
| FifoFrames.CopyMessage | L1/fifo_bulk_writer.c:30-40 | Once round the loop writes one zero-padded frame, and none for an empty read. |
| FifoFrames.WriteToFifo | L1/fifo_bulk_writer.c:22-42 | The loop with its one buffer writes exactly the framed rest of the file, and no extra frame for an exact multiple. |
| Completion.RunKeepsInv | L3/notes/exe1.c:74-90 | Mutual exclusion, the count of finished children and the meaning of the flag hold in every run, for any leftovers in memory. |
| Completion.NoLostWakeup | L3/notes/exe1.c:82-88 | Whenever the parent sleeps with the flag up, the signal that wakes it is still to come. |
| Completion.PassedMeansAdded | L3/notes/exe1.c:161-165 | On zeroed memory the wait is over only when all children have added their pids. |
| Completion.DividedIsQuotient | L3/notes/exe1.c:66-69 | k truncating divisions by n are one division by n to the k. |
| Completion.DividedTowardsZero | L3/notes/exe1.c:66-69 | The same for every `int`, negative ones included: k divisions towards zero are one. |
| Completion.FinalCounter | L3/notes/exe1.c:63-90 | End to end: on zeroed memory every run that ends leaves the sum of the pids divided by n to the n, rounded down. |
| CompletionProgress.CounterFitsIff | L3/notes/exe1.c:76-78 | On zeroed memory no reachable value of the counter exceeds a 32-bit `int` if and only if the sum of all pids does not. |
| CompletionProgress.WaitIsSafeIff | L3/notes/exe1.c:149-164 | The parent never goes on too early if and only if there are no children, or memory held no flag and no number between 0 and the number of children. |
| CompletionProgress.SomebodyCanStep | L3/notes/exe1.c:74-166 | No deadlock, and no dependence on spurious wakeups, once the flag is bound to go up. |
| CompletionProgress.RunsAreBounded | L3/notes/exe1.c:74-166 | Beyond three steps for each spurious wakeup no run is longer than a bound known from the start. |
| CompletionProgress.CanEndIff | L3/notes/exe1.c:159-166 | The program can end if and only if memory held a flag or a number from 0 to below the number of children; with none and zeroed memory it sleeps for ever. |
| SharedMemory.Memory.constructor | L3/notes/exe1.c:149-150 | Only the counter is initialised. |
| SharedMemory.Memory.AdvanceChild | L3/notes/exe1.c:74-90 | A child's steps on the shared fields, in place. |
| SharedMemory.Memory.AdvanceParent | L3/notes/exe1.c:159-166 | The parent's steps, in place. |
| SharedMemory.Memory.Play | L3/notes/exe1.c:159-166 | A whole run in place on zeroed memory leaves the quotient when it ends. |
| SharedMemory.Memory.Operation | L3/notes/exe1.c:63-72 | The division loop, undisturbed, divides once by n to the n, and its steps are a run of the transition system. |
| WorkerPool.StepKeepsInv | L2/exercise2.c:83-127 | Unsent and queued tasks together always equal what the workers still demand; taken and queued ones are the tasks sent, in order. |
| WorkerPool.QuotasAreKept | L2/exercise2.c:83-107 | In every run from the opening each worker has received what it no longer demands, and exactly five tasks once it has left. |
| WorkerPool.EverybodyLeavesIff | L2/exercise2.c:109-127 | Where a run without failed calls comes to rest, with SIGINT or without, all workers have done five tasks and left if and only if none was left unsent. |
| WorkerPool.InterruptStrands | L2/exercise2.c:109-127 | In any pool with a worker: a run in which SIGINT comes first, nothing is sent, nobody can go on, and no worker has left. |
| WorkerPool.InterruptCanStrandIff | L2/exercise2.c:47-127 | Some run comes to rest with a worker left behind if and only if the pool has a worker. |
| WorkerPool.NoDeadlock | L2/exercise2.c:83-127 | Without signals a run is stuck if and only if the parent has left, after all workers, with the queue empty and every task handed out once. |
| WorkerPool.RunLengthIsFixed | L2/exercise2.c:83-127 | Every undisturbed run to the end has exactly 20n + 2 steps, and none has more. |
| PoolRecord.TasksComeInOrder | L2/exercise2.c:90-101 | The k-th receipt of any run, whoever's it is, puts the k-th task sent into that worker's hands. |
| PoolRecord.EveryTaskIsInOneHand | L2/exercise2.c:90-106 | In every run the tasks in the workers' hands and those finished are together the first tasks sent, each once. |
| PoolRecord.NoTaskTwice | L2/exercise2.c:90-106 | No two workers are at work on one task, and nobody on a finished one. |
| PoolRecord.EveryTaskIsDoneOnce | L2/exercise2.c:83-127 | At the undisturbed end each of the 5n tasks has been finished exactly once. |
| PoolSignals.SignalsTakeEffect | L2/exercise2.c:47-118 | A run has failed exactly when a signal found a blocked send or receive; the parent has gone exactly when all its workers were reaped or a signal found it waiting; the stop flag is up exactly when a signal found it running. |
| PoolSignals.StopEndsSending | L2/exercise2.c:112-117 | Once the flag is up at most the task just being sent is sent. |
| PoolInPlace.Workshop.Receive | L2/exercise2.c:90-99 | A worker takes the oldest task of the queue, in place. |
| PoolInPlace.Workshop.Finish | L2/exercise2.c:105-106 | A worker counts a task and leaves after the fifth, in place. |
| PoolInPlace.Workshop.Perform | L2/exercise2.c:83-127 | Any step of any process, in place, is the step of the transition system. |
| PoolInPlace.Workshop.Play | L2/exercise2.c:168-171 | A whole undisturbed run in place ends with everybody gone, the queue empty, and every task handed out once in order. |

## Left out

- System calls that only set things up or tear them down: opening, mapping, unlinking, argument parsing, printing,
  sleeping, closing pipe ends. `rand()`, the clock and the scheduler are nondeterministic choice or parameters.
- NightShift.Shaped: excludes N = 256 for the version that numbers mutexes from one, where the last mutex lies beyond its
  table, and N < 2, where the draw of a second shelf never ends.
- NightShiftManager.AcceptedNightIsInOrder: says nothing about single scans during which a shelf already read is stored
  to. Of those the ones that have loaded 1, 2, ..., N are right (`NightShiftWitness.TellingScanIsRight`); which shifts can
  have a wrong one at all is told by `NightShiftVerdict.VerdictCanBeWrongIff`, for nights without losses.
- RailwayNetwork.CreateRailway: what happens after a store beyond the tables is undefined in the original and not modelled;
  it is reported as `Strayed`.
- RailwayFinder.FindShortestWay: for networks in which no station is joined to itself, and not for stations in range whose
  indices lie beyond the tables; a link beyond the table, undefined in the original, is reported as `strayed`; path
  entries and 16-bit lengths fit their types and are not wrapped.
- RailwayFinder.AnswerIsRight: which routes are shortest by accident, at a recorded length that is too large, is not
  characterised.
- RailwayNetwork.LoadLine: a field that cannot be scanned is one case, whatever the scanner's reason.
- Bingo.Opening: starts with both queues empty, although the program does not unlink queues left by an earlier execution.
- BingoCapacity.StuckIffOver: no termination of the bingo parent is claimed, because a full number queue can block it.
  `Bingo.Opening` with no place for numbers at all is outside `ParentCanBeStrandedIff`.
  Clobbering of `errno` between handlers and the order of real-time signals relative to exits are not modelled.
- Dealing.DealRandomCards: draws that find an empty slot are left out of the sequence of draws.
- ShipGame.Apply: a card is one atomic pipe message; the end of the game by SIGTERM is one step.
- FifoFrames.TextFile.Read: regular files only, so a read is short only at the end; the pid is stored lowest byte first.
- Completion.FinalCounter: the sum of pids is unbounded; that the 32-bit `int` of the program holds it is the condition of
  `CompletionProgress.CounterFitsIff`. Children are not killed inside a critical section.
- WorkerPool.Apply: the tasks' floating-point contents and the stop flag inside a task, which is never sent as 0.
- Kernel objects (mutexes, queues, pipes, pending signals) are values inside the state of each transition system, also
  where the arrays and variables around them are updated in place.
- The Dafny models of the transition systems do not say how fair the scheduler is: progress is stated as the absence of
  deadlock, as bounds on run length, and as runs that can always be completed.
- `L3/Exercise3/channel.c`, `L1/PolishTask`, `L1/polishtask.c`, the dog races, the `L4` servers and clients,
  `L1/cardgame.c`, the numerical integrations, `L3/Exercise2` and train stages two to four: plumbing, stubs, or programs
  whose own code does not keep the invariant they aim at.
