/**
 What the search answers from a station to itself. It first sets the start's distance to 0 and then the destination's to
 -1; where the two are one station it forgets that it is already there, and never answers that no connection is needed.
 */
module RailwaySameStation {
  import opened Railway
  import opened RailwaySearch
  import opened RailwaySearchInvariant
  import opened RailwayRoutes
  import opened RailwayTurns

  /** Whatever has a distance got it over a connection. */
  predicate OnlyByConnection(s: Search)
    requires Sized(s)
  {
    forall v :: 0 <= v < MAX_STATIONS && s.distance[v] != -1 ==> s.hops[v] > 0
  }

  lemma {:induction false} ScanKeepsHops(net: Net, s: Search, u: nat, d: int, i: nat)
    requires Valid(net) && Sized(s) && u <= net.stations && i <= net.counts[u] && OnlyByConnection(s)
    ensures OnlyByConnection(Scan(net, s, u, d, i))
    decreases net.counts[u] - i
  {
    if i < net.counts[u] {
      var v := NeighbourIsOther(net, u, i);
      ScanKeepsHops(net, Relax(net, s, u, d, v), u, d, i + 1);
    }
  }

  lemma {:induction false} TurnsKeepHops(net: Net, from: nat, s: Search, k: nat)
    requires Fits(net, from, s) && OnlyByConnection(s)
    ensures OnlyByConnection(Turns(net, from, s, k))
    decreases k
  {
    if k > 0 && s.front < |s.order| {
      VisitFits(net, from, s);
      ScanKeepsHops(net, Taken(s), s.order[s.front], s.distance[s.order[s.front]], 0);
      TurnsKeepHops(net, from, Visit(net, s), k - 1);
    }
  }

  /**
   In every network, from every station to itself: the search finds no way, or one over at least one connection, though
   the walk that stays where it is has length 0 and needs none.
   */
  lemma {:induction false} NoWayToStay(net: Net, station: nat)
    requires Valid(net) && station <= net.stations
    ensures var t := Searched(net, station, station);
            t.distance[station] == -1 || t.hops[station] > 0
    ensures IsShortest(net, station, station, 0) && WalkBetween(net, [station], station, station)
  {
    StartFits(net, station, station);
    TurnsKeepHops(net, station, Start(station, station), MAX_STATIONS);
    assert WalkBetween(net, [station], station, station) && WalkLength(net, [station]) == 0;
  }

  /** Some live walk of at least one connection leads from one station to the other. */
  ghost predicate CanBeReached(net: Net, from: nat, v: nat)
    requires Shaped(net)
  {
    exists w :: WalkBetween(net, w, from, v) && |w| > 1
  }

  lemma {:induction false} ReachesOn(net: Net, from: nat, u: nat, v: nat)
    requires Shaped(net) && Live(net, u, v) && (u == from || CanBeReached(net, from, u))
    ensures CanBeReached(net, from, v)
  {
    var w := [from];
    if u != from {
      w :| WalkBetween(net, w, from, u) && |w| > 1;
    }
    assert WalkBetween(net, w + [v], from, v);
  }

  /** What is queued behind the first place can be reached, and what has a distance is queued there. */
  ghost predicate Known(net: Net, from: nat, s: Search, v: nat)
    requires Shaped(net) && Sized(s) && |s.order| > 0 && v < MAX_STATIONS
  {
    && s.distance[v] >= -1 && (s.distance[v] >= 0 ==> v in s.order[1..])
    && (v in s.order[1..] ==> CanBeReached(net, from, v))
  }

  ghost predicate AllKnown(net: Net, from: nat, s: Search)
    requires Shaped(net) && Sized(s) && |s.order| > 0
  {
    forall v :: 0 <= v < MAX_STATIONS ==> Known(net, from, s, v)
  }

  /** Whoever is live-connected from u has a distance. */
  ghost predicate Served(net: Net, s: Search, u: nat)
    requires Shaped(net) && Sized(s)
  {
    forall v :: 0 <= v < MAX_STATIONS && Live(net, u, v) ==> s.distance[v] >= 0
  }

  /** Distances once set stay set, and the queue only grows. */
  ghost predicate Further(s: Search, t: Search)
    requires Sized(s) && Sized(t)
  {
    s.order <= t.order && forall x :: 0 <= x < MAX_STATIONS && s.distance[x] >= 0 ==> t.distance[x] >= 0
  }

  ghost predicate Serving(net: Net, from: nat, s: Search, u: nat, d: int) {
    Searchable(net) && FitsWhile(net, from, s, u) && AllKnown(net, from, s) && d >= -1
    && (u == from || CanBeReached(net, from, u))
  }

  lemma {:induction false} RelaxKeepsKnown(net: Net, from: nat, s: Search, u: nat, d: int, v: nat, x: nat)
    requires Serving(net, from, s, u, d) && Live(net, u, v) && x < MAX_STATIONS
    ensures var t := Relax(net, s, u, d, v); |t.order| > 0 && Known(net, from, t, x)
  {
    var t := Relax(net, s, u, d, v);
    LookQueues(net, s, u, d, v, t);
    ReachesOn(net, from, u, v);
    assert Known(net, from, s, x) && MarkIsGood(s, v);
    if t.order != s.order {
      assert t.order[1..] == s.order[1..] + [v];
    }
  }

  lemma {:induction false} RelaxServes(net: Net, from: nat, s: Search, u: nat, d: int, v: nat)
    requires Serving(net, from, s, u, d) && Live(net, u, v) && u != v
    ensures var t := Relax(net, s, u, d, v);
            Serving(net, from, t, u, d) && Further(s, t) && t.distance[v] >= 0
  {
    var t := Relax(net, s, u, d, v);
    RelaxFits(net, from, s, u, d, v);
    LookQueues(net, s, u, d, v, t);
    assert Known(net, from, s, v);
    forall x | 0 <= x < MAX_STATIONS
      ensures Known(net, from, t, x)
    {
      RelaxKeepsKnown(net, from, s, u, d, v, x);
    }
  }

  ghost predicate ServedAt(net: Net, s: Search, u: nat, j: nat)
    requires Shaped(net) && Sized(s) && u < MAX_STATIONS && j < net.counts[u]
  {
    Neighbours(net, u)[j] < MAX_STATIONS && s.distance[Neighbours(net, u)[j]] >= 0
  }

  lemma {:induction false} ScanServes(net: Net, from: nat, s: Search, u: nat, d: int, i: nat)
    requires Serving(net, from, s, u, d) && i <= net.counts[u]
    requires forall j :: 0 <= j < i && Live(net, u, Neighbours(net, u)[j]) ==> ServedAt(net, s, u, j)
    ensures var t := Scan(net, s, u, d, i); Serving(net, from, t, u, d) && Further(s, t) && Served(net, t, u)
    decreases net.counts[u] - i
  {
    if i == net.counts[u] {
      forall v | 0 <= v < MAX_STATIONS && Live(net, u, v)
        ensures s.distance[v] >= 0
      {
        var j :| 0 <= j < i && Neighbours(net, u)[j] == v;
        assert ServedAt(net, s, u, j);
      }
    } else {
      var v := NeighbourIsOther(net, u, i);
      if Live(net, u, v) {
        RelaxServes(net, from, s, u, d, v);
      }
      var t := Relax(net, s, u, d, v);
      forall j | 0 <= j < i + 1 && Live(net, u, Neighbours(net, u)[j])
        ensures ServedAt(net, t, u, j)
      {
        assert j < i ==> ServedAt(net, s, u, j);
      }
      ScanServes(net, from, t, u, d, i + 1);
    }
  }

  /** Between two turns. */
  ghost predicate Serves(net: Net, from: nat, s: Search) {
    && Searchable(net) && Fits(net, from, s) && AllKnown(net, from, s)
    && forall k :: 0 <= k < s.front ==> Served(net, s, s.order[k])
  }

  lemma {:induction false} TakenServes(net: Net, from: nat, s: Search)
    requires Serves(net, from, s) && s.front < |s.order|
    ensures var u := s.order[s.front]; Serving(net, from, Taken(s), u, s.distance[u])
  {
    var u := s.order[s.front];
    TakenFits(net, from, s);
    assert s.front > 0 ==> u == s.order[1..][s.front - 1];
    forall v | 0 <= v < MAX_STATIONS
      ensures Known(net, from, Taken(s), v)
    {
      assert Known(net, from, s, v);
    }
    assert Known(net, from, s, u);
  }

  lemma {:induction false} TurnServes(net: Net, from: nat, s: Search)
    requires Serves(net, from, s) && s.front < |s.order|
    ensures s.order[s.front] <= net.stations && Serves(net, from, Visit(net, s))
  {
    var u := s.order[s.front];
    TakenServes(net, from, s);
    ScanServes(net, from, Taken(s), u, s.distance[u], 0);
    var t := Visit(net, s);
    forall k | 0 <= k < t.front
      ensures Served(net, t, t.order[k])
    {
      assert t.order[k] == s.order[k];
      assert k < s.front ==> Served(net, s, s.order[k]);
    }
  }

  lemma {:induction false} TurnsServe(net: Net, from: nat, s: Search, k: nat)
    requires Serves(net, from, s) && MAX_STATIONS <= s.front + k
    ensures var t := Turns(net, from, s, k); Serves(net, from, t) && t.front == |t.order|
    decreases k
  {
    if s.front < |s.order| {
      QueueIsShort(net, from, s);
      TurnServes(net, from, s);
      TurnsServe(net, from, Visit(net, s), k - 1);
    }
  }

  /** At the end every walk of at least one connection leads to a station with a distance. */
  lemma {:induction false} WalkIsServed(net: Net, from: nat, s: Search, w: seq<nat>, v: nat)
    requires Serves(net, from, s) && s.front == |s.order| && WalkBetween(net, w, from, v) && |w| > 1
    ensures v <= net.stations && s.distance[v] >= 0
    decreases |w|
  {
    var u := w[|w| - 2];
    WalkPrefix(net, w, from, v);
    if |w| == 2 {
      assert s.order[0] == from;
      assert Served(net, s, s.order[0]);
    } else {
      WalkIsServed(net, from, s, w[..|w| - 1], u);
      assert Known(net, from, s, u);
      var k :| 0 <= k < |s.order[1..]| && s.order[1..][k] == u;
      assert Served(net, s, s.order[k + 1]);
    }
  }

  /**
   What it does answer, for all positive lengths: -1 exactly when no live walk of at least one connection leads back to
   the station.
   */
  lemma {:induction false} WayBackIff(net: Net, station: nat)
    requires Searchable(net) && station <= net.stations
    ensures Searched(net, station, station).distance[station] == -1 <==> !CanBeReached(net, station, station)
  {
    var s := Start(station, station);
    StartFits(net, station, station);
    assert s.order[1..] == [];
    TurnsServe(net, station, s, MAX_STATIONS);
    var t := Searched(net, station, station);
    assert Known(net, station, t, station);
    if w :| WalkBetween(net, w, station, station) && |w| > 1 {
      WalkIsServed(net, station, t, w, station);
    }
  }
}
