/**
 The bingo game over two message queues as a transition system. The parent broadcasts numbers on one queue; children
 with a finite life consume them and report on the other, which the parent drains from a signal handler that registers
 itself anew for every notification. A second handler reaps children. Handlers interrupt the main program, and each
 other, between any two steps, but no handler interrupts itself.
 Queue, notification and wait semantics are those of mq_notify(), mq_receive() and waitpid() in POSIX.1-2017.
 */
module Bingo {

  const LIFE_SPAN := 10
  const MAX_NUM := 10

  /** What a child reports: its bingo number, at high priority, or its own number when it times out. */
  datatype Report = Report(bingo: bool, value: nat)

  datatype Child =
    | Unborn
    | Hungry(life: nat, number: nat)  // waiting for a number
    | Telling(report: Report)         // about to send its report
    | Told(report: Report)            // about to exit
    | Zombie(report: Report)
    | Reaped(report: Report)

  /** The handlers under way, the innermost last: before re-registering, while draining, while reaping. */
  datatype Frame = Entering | Draining | Reaping

  /** The parent's main program; counting a child in is a load and a store. */
  datatype Main =
    | Forking(k: nat) | Loading(k: nat) | Storing(k: nat, v: int)
    | Registering
    | Checking | Sending(m: nat)
    | Finished

  datatype Game = Game(inCapacity: nat, outCapacity: nat, reports: seq<Report>, numbers: seq<nat>,
                       registered: bool, notices: nat, childSignal: bool, children: seq<Child>,
                       childrenLeft: int, main: Main, handlers: seq<Frame>, printed: seq<Report>, failed: bool)

  datatype Action =
    | Fork(life: nat, number: nat)
    | Run(m: nat)           // the main program's next step; m is the number it draws
    | DeliverNotice         // the real-time signal interrupts
    | DeliverChildSignal    // SIGCHLD interrupts
    | Handle                // the innermost handler's next step
    | Reap(i: nat)          // the reaping handler collects child i
    | Eat(i: nat)           // child i receives a number
    | Tell(i: nat)          // child i sends its report
    | Exit(i: nat)          // child i exits

  /** The notification handler is under way, and so blocks its own signal. */
  predicate InNotice(g: Game) {
    Entering in g.handlers || Draining in g.handlers
  }

  predicate InReaping(g: Game) {
    Reaping in g.handlers
  }

  predicate NoZombie(g: Game) {
    forall i :: 0 <= i < |g.children| ==> !g.children[i].Zombie?
  }

  function Innermost(g: Game): Frame
    requires g.handlers != []
  {
    g.handlers[|g.handlers| - 1]
  }

  predicate Enabled(g: Game, a: Action) {
    && !g.failed
    && match a
       case Fork(life, number) =>
         g.handlers == [] && g.main.Forking? && 0 < g.main.k <= |g.children|
         && 1 <= life <= LIFE_SPAN && number < MAX_NUM
       case Run(m) =>
         g.handlers == [] && g.main != Finished && m < MAX_NUM
         && (g.main.Forking? ==> g.main.k == 0)
         && (g.main.Loading? || g.main.Storing? ==> g.main.k > 0)
         && (g.main.Sending? ==> |g.numbers| < g.outCapacity)
       case DeliverNotice => g.main != Finished && g.notices > 0 && !InNotice(g)
       case DeliverChildSignal => g.main != Finished && g.childSignal && !InReaping(g)
       case Handle => g.handlers != [] && (Innermost(g) == Reaping ==> NoZombie(g))
       case Reap(i) => g.handlers != [] && Innermost(g) == Reaping && i < |g.children| && g.children[i].Zombie?
       case Eat(i) => i < |g.children| && g.children[i].Hungry? && g.children[i].life > 0 && g.numbers != []
       case Tell(i) => i < |g.children| && g.children[i].Telling?
       case Exit(i) => i < |g.children| && g.children[i].Told?
  }

  /** A queue entry goes behind every entry of its own or higher priority. */
  function Insert(q: seq<Report>, r: Report): (p: seq<Report>)
    ensures |p| == |q| + 1
  {
    if q == [] || (r.bingo && !q[0].bingo) then [r] + q else [q[0]] + Insert(q[1..], r)
  }

  /** mq_notify(): a second registration is an error that ends the game. */
  function Register(g: Game): (h: Game)
    ensures !g.failed ==> h.registered && (h.failed <==> g.registered)
  {
    if g.registered then g.(failed := true) else g.(registered := true)
  }

  function RunMain(g: Game, m: nat): Game
    requires Enabled(g, Run(m))
  {
    match g.main
    case Forking(k) => g.(main := Registering)
    case Loading(k) => g.(main := Storing(k, g.childrenLeft))
    case Storing(k, v) => g.(childrenLeft := v + 1, main := Forking(k - 1))
    case Registering => Register(g).(main := Checking)
    case Checking => g.(main := if g.childrenLeft == 0 then Finished else Sending(m))
    case Sending(x) => g.(numbers := g.numbers + [x], main := Checking)
  }

  function RunHandler(g: Game): Game
    requires g.handlers != []
  {
    var outer := g.handlers[..|g.handlers| - 1];
    match Innermost(g)
    case Entering => Register(g).(handlers := outer + [Draining])
    case Draining =>
      if g.reports == [] then g.(handlers := outer)
      else g.(reports := g.reports[1..], printed := g.printed + [g.reports[0]])
    case Reaping => g.(handlers := outer)
  }

  /** A hungry child takes a number: bingo, the end of its life, or neither. */
  function Fed(c: Child, i: nat, m: nat): Child
    requires c.Hungry? && c.life > 0
  {
    if m == c.number then Telling(Report(true, m))
    else if c.life == 1 then Telling(Report(false, i + 1))
    else c.(life := c.life - 1)
  }

  /** A non-blocking send: a full queue is an error that ends the game; an empty registered one notifies. */
  function Sent(g: Game, i: nat): Game
    requires i < |g.children| && g.children[i].Telling?
  {
    var r := g.children[i].report;
    if |g.reports| >= g.inCapacity then g.(failed := true)
    else
      var notify := g.reports == [] && g.registered;
      g.(reports := Insert(g.reports, r), children := g.children[i := Told(r)],
         registered := g.registered && !notify, notices := if notify then g.notices + 1 else g.notices)
  }

  function Apply(g: Game, a: Action): (h: Game)
    requires Enabled(g, a)
    ensures |h.children| == |g.children| && h.inCapacity == g.inCapacity && h.outCapacity == g.outCapacity
  {
    match a
    case Fork(life, number) =>
      g.(children := g.children[g.main.k - 1 := Hungry(life, number)], main := Loading(g.main.k))
    case Run(m) => RunMain(g, m)
    case DeliverNotice => g.(notices := g.notices - 1, handlers := g.handlers + [Entering])
    case DeliverChildSignal => g.(childSignal := false, handlers := g.handlers + [Reaping])
    case Handle => RunHandler(g)
    case Reap(i) =>
      g.(children := g.children[i := Reaped(g.children[i].report)], childrenLeft := g.childrenLeft - 1)
    case Eat(i) =>
      g.(numbers := g.numbers[1..], children := g.children[i := Fed(g.children[i], i, g.numbers[0])])
    case Tell(i) => Sent(g, i)
    case Exit(i) => g.(children := g.children[i := Zombie(g.children[i].report)], childSignal := true)
  }

  predicate Legal(g: Game, run: seq<Action>)
    decreases |run|
  {
    run == [] || (Enabled(g, run[0]) && Legal(Apply(g, run[0]), run[1..]))
  }

  function After(g: Game, run: seq<Action>): (h: Game)
    requires Legal(g, run)
    ensures |h.children| == |g.children| && h.inCapacity == g.inCapacity && h.outCapacity == g.outCapacity
    decreases |run|
  {
    if run == [] then g else After(Apply(g, run[0]), run[1..])
  }

  /** Both queues empty, handlers installed, n children to create. */
  function Opening(n: nat, inCapacity: nat, outCapacity: nat): Game {
    Game(inCapacity, outCapacity, [], [], false, 0, false, seq(n, _ => Unborn), 0, Forking(n), [], [], false)
  }
}
