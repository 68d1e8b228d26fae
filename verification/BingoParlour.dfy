/** The game carried out in place: the parent's variables and the kernel's queues as fields, and the two handlers. */
module BingoParlour {
  import opened Bingo
  import opened BingoCapacity

  /** Children that have exited and are not yet reaped. */
  function Zombies(cs: seq<Child>): nat {
    if cs == [] then 0 else (if cs[0].Zombie? then 1 else 0) + Zombies(cs[1..])
  }

  lemma {:induction false} ReapedOneLess(cs: seq<Child>, i: nat)
    requires i < |cs| && cs[i].Zombie?
    ensures Zombies(cs[i := Reaped(cs[i].report)]) == Zombies(cs) - 1
  {
    var c := Reaped(cs[i].report);
    if i == 0 {
      assert cs[0 := c][1..] == cs[1..];
    } else {
      assert cs[i := c][1..] == cs[1..][i - 1 := c];
      ReapedOneLess(cs[1..], i - 1);
    }
  }

  lemma {:induction false} NobodyLeft(cs: seq<Child>)
    requires forall k :: 0 <= k < |cs| ==> !cs[k].Zombie?
    ensures Zombies(cs) == 0
  {
    if cs != [] {
      NobodyLeft(cs[1..]);
    }
  }

  lemma {:induction false} InsertAt(q: seq<Report>, r: Report, k: nat)
    requires k <= |q| && forall j :: 0 <= j < k ==> !(r.bingo && !q[j].bingo)
    requires k == |q| || (r.bingo && !q[k].bingo)
    ensures Insert(q, r) == q[..k] + [r] + q[k..]
  {
    if k == 0 {
      assert q[..0] + [r] + q[0..] == [r] + q;
    } else {
      InsertAt(q[1..], r, k - 1);
      assert q[..k] == [q[0]] + q[1..][..k - 1] && q[1..][k - 1..] == q[k..];
    }
  }

  /** A child fed one number after the other while it is hungry, and how many it has taken. */
  function FedInTurn(c: Child, i: nat, ms: seq<nat>): (r: (Child, nat))
    requires c.Hungry? ==> c.life > 0
    decreases |ms|
  {
    if ms == [] || !c.Hungry? then (c, 0)
    else
      var rest := FedInTurn(Fed(c, i, ms[0]), i, ms[1..]);
      (rest.0, rest.1 + 1)
  }

  /** What a child reports: its number if that is among the first `life` it takes, its own number if not. */
  function Outcome(i: nat, life: nat, number: nat, ms: seq<nat>): Report
    requires life <= |ms|
  {
    if number in ms[..life] then Report(true, number) else Report(false, i + 1)
  }

  /** A child takes numbers until the first that is its own, and otherwise exactly as many as it has lives. */
  lemma {:induction false} LifeOfAChild(i: nat, life: nat, number: nat, ms: seq<nat>)
    requires 1 <= life <= |ms|
    ensures var (c, eaten) := FedInTurn(Hungry(life, number), i, ms);
            && c == Telling(Outcome(i, life, number, ms)) && 1 <= eaten <= life
            && number !in ms[..eaten - 1]
            && (if number in ms[..life] then ms[eaten - 1] == number else eaten == life)
    decreases life
  {
    if ms[0] != number && life > 1 {
      LifeOfAChild(i, life - 1, number, ms[1..]);
      var (_, eaten) := FedInTurn(Hungry(life, number), i, ms);
      assert ms[..life] == [ms[0]] + ms[1..][..life - 1];
      assert ms[..eaten - 1] == [ms[0]] + ms[1..][..eaten - 2];
    }
  }

  /** A child's loop over the numbers it will receive. */
  method ChildWork(i: nat, life: nat, number: nat, ms: seq<nat>) returns (report: Report, eaten: nat)
    requires 1 <= life <= |ms|
    ensures FedInTurn(Hungry(life, number), i, ms) == (Telling(report), eaten)
    ensures report == Outcome(i, life, number, ms)
  {
    LifeOfAChild(i, life, number, ms);
    var left := life;
    while left > 0
      invariant 0 <= left <= life && number !in ms[..life - left]
    {
      if ms[life - left] == number {
        assert number in ms[..life];
        return Report(true, number), life - left + 1;
      }
      assert ms[..life - left + 1] == ms[..life - left] + [ms[life - left]];
      left := left - 1;
    }
    return Report(false, i + 1), life;
  }

  class Parlour {
    const inCapacity: nat
    const outCapacity: nat
    const children: array<Child>
    var reports: seq<Report>
    var numbers: seq<nat>
    var registered: bool
    var notices: nat
    var childSignal: bool
    var childrenLeft: int
    var main: Main
    var handlers: seq<Frame>
    var printed: seq<Report>
    var failed: bool

    /** The state of the transition system that the fields stand for. */
    ghost function State(): (g: Game)
      reads this, children
    {
      Game(inCapacity, outCapacity, reports, numbers, registered, notices, childSignal, children[..], childrenLeft,
           main, handlers, printed, failed)
    }

    constructor (n: nat, inCapacity: nat, outCapacity: nat)
      ensures fresh(children) && State() == Opening(n, inCapacity, outCapacity)
    {
      this.inCapacity, this.outCapacity := inCapacity, outCapacity;
      children := new Child[n](_ => Unborn);
      reports, numbers, printed, handlers := [], [], [], [];
      registered, notices, childSignal, childrenLeft, main, failed := false, 0, false, 0, Forking(n), false;
    }

    /** A second registration is an error. */
    method Notify()
      modifies this`registered, this`failed
      ensures State() == Register(old(State()))
    {
      if registered {
        failed := true;
      } else {
        registered := true;
      }
    }

    /** The main program's next step. */
    method Advance(m: nat)
      requires Enabled(State(), Run(m))
      modifies this
      ensures State() == Apply(old(State()), Run(m))
    {
      match main {
        case Forking(k) =>
          main := Registering;
        case Loading(k) =>
          main := Storing(k, childrenLeft);
        case Storing(k, v) =>
          childrenLeft := v + 1;
          main := Forking(k - 1);
        case Registering =>
          Notify();
          main := Checking;
        case Checking =>
          main := if childrenLeft == 0 then Finished else Sending(m);
        case Sending(x) =>
          numbers := numbers + [x];
          main := Checking;
      }
    }

    /** The next step of the innermost handler. */
    method HandleStep()
      requires Enabled(State(), Handle)
      modifies this
      ensures State() == Apply(old(State()), Handle)
    {
      var outer := handlers[..|handlers| - 1];
      match handlers[|handlers| - 1] {
        case Entering =>
          Notify();
          handlers := outer + [Draining];
        case Draining =>
          if reports == [] {
            handlers := outer;
          } else {
            printed := printed + [reports[0]];
            reports := reports[1..];
          }
        case Reaping =>
          handlers := outer;
      }
    }

    /** A report goes behind every report of its own or higher priority. */
    method Enqueue(r: Report)
      modifies this`reports
      ensures reports == Insert(old(reports), r)
    {
      var k := 0;
      while k < |reports| && !(r.bingo && !reports[k].bingo)
        invariant k <= |reports| && forall j :: 0 <= j < k ==> !(r.bingo && !reports[j].bingo)
      {
        k := k + 1;
      }
      InsertAt(reports, r, k);
      reports := reports[..k] + [r] + reports[k..];
    }

    method SendReport(i: nat)
      requires Enabled(State(), Tell(i))
      modifies this, children
      ensures State() == Apply(old(State()), Tell(i))
    {
      if |reports| >= inCapacity {
        failed := true;
      } else {
        var notify := reports == [] && registered;
        Enqueue(children[i].report);
        if notify {
          registered, notices := false, notices + 1;
        }
        children[i] := Told(children[i].report);
      }
    }

    /** Any step of any process, in place. */
    method Perform(a: Action)
      requires Enabled(State(), a)
      modifies this, children
      ensures State() == Apply(old(State()), a)
    {
      match a {
        case Fork(life, number) =>
          children[main.k - 1] := Hungry(life, number);
          main := Loading(main.k);
        case Run(m) =>
          Advance(m);
        case DeliverNotice =>
          notices, handlers := notices - 1, handlers + [Entering];
        case DeliverChildSignal =>
          childSignal, handlers := false, handlers + [Reaping];
        case Handle =>
          HandleStep();
        case Reap(i) =>
          ReapChild(i);
        case Eat(i) =>
          children[i] := Fed(children[i], i, numbers[0]);
          numbers := numbers[1..];
        case Tell(i) =>
          SendReport(i);
        case Exit(i) =>
          children[i] := Zombie(children[i].report);
          childSignal := true;
      }
    }

    /** A whole game under a given schedule. */
    method Play(schedule: seq<Action>)
      requires Legal(State(), schedule)
      modifies this, children
      ensures State() == After(old(State()), schedule)
    {
      ghost var start := State();
      for i := 0 to |schedule|
        invariant Legal(State(), schedule[i..])
        invariant After(State(), schedule[i..]) == After(start, schedule)
      {
        Perform(schedule[i]);
        assert schedule[i..][1..] == schedule[i + 1..];
      }
    }

    /**
     The notification handler from beginning to end with nothing in between: it registers again, prints what the queue
     holds in queue order, and leaves it empty. The steps it takes are a run of the transition system.
     */
    method MqHandler() returns (ghost run: seq<Action>)
      requires !failed && handlers != [] && handlers[|handlers| - 1] == Entering && !registered
      modifies this`registered, this`failed, this`reports, this`printed, this`handlers
      ensures !failed && registered && reports == [] && printed == old(printed) + old(reports)
      ensures handlers == old(handlers[..|handlers| - 1])
      ensures Legal(old(State()), run) && After(old(State()), run) == State()
    {
      ghost var g := State();
      Notify();
      while reports != []
        invariant printed + reports == old(printed) + old(reports)
        invariant registered && !failed && handlers == old(handlers)
      {
        HeadFirst(printed, reports);
        printed := printed + [reports[0]];
        reports := reports[1..];
      }
      handlers := handlers[..|handlers| - 1];
      ghost var h: Game;
      run, h := Grow(g, [], g, Handle);
      run, h := Drain(g, run, h);
    }

    /** One waitpid() of the handler. */
    method ReapChild(i: nat)
      requires Enabled(State(), Reap(i))
      modifies this`childrenLeft, children
      ensures State() == Apply(old(State()), Reap(i))
      ensures children[..] == old(children[..])[i := Reaped(old(children[i]).report)]
    {
      children[i] := Reaped(children[i].report);
      childrenLeft := childrenLeft - 1;
    }

    /**
     The child handler from beginning to end: every child that has exited is reaped and counted off, however many exits
     the one pending signal stood for.
     */
    method SigchldHandler() returns (ghost run: seq<Action>)
      requires !failed && handlers != [] && handlers[|handlers| - 1] == Reaping
      modifies this`childrenLeft, this`handlers, children
      ensures childrenLeft == old(childrenLeft) - Zombies(old(children[..]))
      ensures NoZombie(State()) && handlers == old(handlers[..|handlers| - 1])
      ensures Legal(old(State()), run) && After(old(State()), run) == State()
    {
      ghost var g, h := State(), State();
      run := [];
      while exists i :: 0 <= i < children.Length && children[i].Zombie?
        invariant childrenLeft == old(childrenLeft) - Zombies(old(children[..])) + Zombies(children[..])
        invariant handlers == old(handlers) && Legal(g, run) && h == After(g, run) == State()
        decreases Zombies(children[..])
      {
        var i :| 0 <= i < children.Length && children[i].Zombie?;
        ReapedOneLess(children[..], i);
        run, h := Grow(g, run, h, Reap(i));
        ReapChild(i);
      }
      NobodyLeft(children[..]);
      run, h := Grow(g, run, h, Handle);
      handlers := handlers[..|handlers| - 1];
    }
  }
}
