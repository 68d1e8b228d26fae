/**
 The search turn by turn, for any two stations. What keeps it inside its arrays is less than what makes it right, and
 holds also where start and destination are the same.
 */
module RailwayTurns {
  import opened Railway
  import opened RailwaySearch
  import opened RailwaySearchInvariant
  import opened RailwayRoutes

  /** The queue and the hops fit their arrays. */
  ghost predicate Fits(net: Net, from: nat, s: Search) {
    && Valid(net) && Sized(s) && QueueIsGood(net, from, s)
    && (forall v :: 0 <= v < MAX_STATIONS ==> MarkIsGood(s, v))
    && (forall v :: 0 <= v < MAX_STATIONS ==> s.hops[v] <= s.front)
  }

  /** The station u, taken last, is being scanned. */
  ghost predicate FitsWhile(net: Net, from: nat, s: Search, u: nat) {
    Fits(net, from, s) && s.front > 0 && u <= net.stations && s.hops[u] < s.front
  }

  lemma {:induction false} StartFits(net: Net, from: nat, to: nat)
    requires Valid(net) && from <= net.stations && to <= net.stations
    ensures Fits(net, from, Start(from, to))
  {
    assert Start(from, to).order[1..] == [];
  }

  lemma {:induction false} TakenFits(net: Net, from: nat, s: Search)
    requires Fits(net, from, s) && s.front < |s.order|
    ensures s.order[s.front] <= net.stations && FitsWhile(net, from, Taken(s), s.order[s.front])
  {
    forall v | 0 <= v < MAX_STATIONS
      ensures MarkIsGood(Taken(s), v)
    {
      assert MarkIsGood(s, v);
    }
  }

  lemma {:induction false} RelaxFits(net: Net, from: nat, s: Search, u: nat, d: int, v: nat)
    requires FitsWhile(net, from, s, u) && v <= net.stations && v != u
    ensures FitsWhile(net, from, Relax(net, s, u, d, v), u)
  {
    assert MarkIsGood(s, v);
    QueueStaysGood(net, from, s, u, d, v);
    forall x | 0 <= x < MAX_STATIONS
      ensures MarkIsGood(Relax(net, s, u, d, v), x)
    {
      assert MarkIsGood(s, x);
      MarkStaysGood(net, s, u, d, v, x);
    }
  }

  lemma {:induction false} NeighbourIsOther(net: Net, u: nat, i: nat) returns (v: nat)
    requires Valid(net) && u <= net.stations && i < net.counts[u]
    ensures v == Neighbours(net, u)[i] && v <= net.stations && v != u
  {
    v := Neighbours(net, u)[i];
    assert RowIsGood(net, u) && v in Neighbours(net, u);
  }

  lemma {:induction false} ScanFits(net: Net, from: nat, s: Search, u: nat, d: int, i: nat)
    requires FitsWhile(net, from, s, u) && i <= net.counts[u]
    ensures FitsWhile(net, from, Scan(net, s, u, d, i), u)
    decreases net.counts[u] - i
  {
    if i < net.counts[u] {
      var v := NeighbourIsOther(net, u, i);
      RelaxFits(net, from, s, u, d, v);
      ScanFits(net, from, Relax(net, s, u, d, v), u, d, i + 1);
    }
  }

  lemma {:induction false} VisitFits(net: Net, from: nat, s: Search)
    requires Fits(net, from, s) && s.front < |s.order|
    ensures s.order[s.front] <= net.stations && Fits(net, from, Visit(net, s))
  {
    TakenFits(net, from, s);
    ScanFits(net, from, Taken(s), s.order[s.front], s.distance[s.order[s.front]], 0);
  }

  /** Some turns of the outer loop, fewer when the queue runs out. */
  ghost function Turns(net: Net, from: nat, s: Search, k: nat): (t: Search)
    requires Fits(net, from, s)
    ensures Fits(net, from, t)
    decreases k
  {
    if k == 0 || s.front >= |s.order| then s
    else
      VisitFits(net, from, s);
      Turns(net, from, Visit(net, s), k - 1)
  }

  /** After as many turns as its queue index says, the search is on its way to `goal`. */
  ghost predicate Leads(net: Net, from: nat, s: Search, goal: Search) {
    Fits(net, from, s) && s.front <= MAX_STATIONS && Turns(net, from, s, MAX_STATIONS - s.front) == goal
  }

  lemma {:induction false} OneTurn(net: Net, from: nat, s: Search, goal: Search) returns (t: Search)
    requires Leads(net, from, s, goal) && s.front < |s.order|
    ensures s.order[s.front] <= net.stations && t == Visit(net, s)
    ensures Leads(net, from, t, goal) && t.front == s.front + 1
  {
    QueueIsShort(net, from, s);
    VisitFits(net, from, s);
    t := Visit(net, s);
  }

  lemma {:induction false} NoMoreTurns(net: Net, from: nat, s: Search, goal: Search)
    requires Leads(net, from, s, goal) && s.front >= |s.order|
    ensures s == goal
  {}

  /** The search from one station for another, or for the same. */
  ghost function Searched(net: Net, from: nat, to: nat): (s: Search)
    requires Valid(net) && from <= net.stations && to <= net.stations
    ensures Fits(net, from, s)
  {
    StartFits(net, from, to);
    Turns(net, from, Start(from, to), MAX_STATIONS)
  }

  lemma {:induction false} TurnsExplore(net: Net, from: nat, s: Search, k: nat, e: Search)
    requires Inv(net, from, s) && Fits(net, from, s) && MAX_STATIONS <= s.front + k && e == Explore(net, from, s)
    ensures Turns(net, from, s, k) == e
    decreases k
  {
    if s.front < |s.order| {
      QueueIsShort(net, from, s);
      VisitKeepsInv(net, from, s);
      VisitFits(net, from, s);
      TurnsExplore(net, from, Visit(net, s), k - 1, e);
    }
  }

  /** Between different stations this is the search that the theorems are about. */
  lemma {:induction false} SearchedIsFinished(net: Net, from: nat, to: nat)
    requires Searchable(net) && from <= net.stations && to <= net.stations && from != to
    ensures Searched(net, from, to) == Finished(net, from, to)
  {
    StartInv(net, from, to);
    StartFits(net, from, to);
    TurnsExplore(net, from, Start(from, to), MAX_STATIONS, Finished(net, from, to));
  }
}
