/** The search as it runs: arrays for the queue and the tables, two nested loops, and a walk back over the links. */
module RailwayFinder {
  import opened Railway
  import opened RailwayNetwork
  import opened RailwayExact
  import opened RailwaySameStation
  import opened RailwayTurns
  import opened RailwaySearch
  import opened RailwaySearchInvariant
  import opened RailwayRoutes
  import opened RailwayUniform

  /** The local arrays of the search. */
  class Tables {
    const visitingOrder: array<nat>
    const previousStation: array<nat>
    const shortestPathLength: array<nat>
    const visited: array<bool>
    const distance: array<int>

    /** The arrays, `last` queue entries of which are in use, hold the state `s`. */
    ghost predicate Hold(last: nat, s: Search)
      reads visitingOrder, previousStation, shortestPathLength, visited, distance
    {
      && visitingOrder.Length == MAX_STATIONS && last <= MAX_STATIONS
      && previousStation != visitingOrder
      && shortestPathLength != visitingOrder && shortestPathLength != previousStation
      && visitingOrder[..last] == s.order
      && previousStation[..] == s.previous && shortestPathLength[..] == s.hops
      && visited[..] == s.visited && distance[..] == s.distance
    }

    constructor (from: nat, to: nat)
      requires from < MAX_STATIONS && to < MAX_STATIONS
      ensures Hold(1, Start(from, to))
      ensures fresh(visitingOrder) && fresh(previousStation) && fresh(shortestPathLength)
      ensures fresh(visited) && fresh(distance)
    {
      visitingOrder := new nat[MAX_STATIONS](_ => INVALID_STATION);
      previousStation := new nat[MAX_STATIONS](_ => INVALID_STATION);
      shortestPathLength := new nat[MAX_STATIONS](_ => 0);
      visited := new bool[MAX_STATIONS](_ => false);
      distance := new int[MAX_STATIONS](_ => -1);
      new;
      visitingOrder[0] := from;
      distance[from] := 0;
      distance[to] := -1;
    }

    /** The comparison of the inner loop and its stores. */
    method Offer(net: Network, u: nat, d: int, v: nat, last: nat, ghost g: Net, ghost s: Search)
      requires g == net.Contents() && Shaped(g) && u <= g.stations && v <= g.stations
      requires Hold(last, s) && Sized(s)
      modifies previousStation, shortestPathLength, distance
      ensures Hold(last, Improved(g, s, u, d, v))
    {
      var length := net.connectionLengths[IndexOf(u, v)];
      if distance[v] == -1 || distance[v] > d + length {
        distance[v] := d + length;
        previousStation[v] := u;
        shortestPathLength[v] := shortestPathLength[u] + 1;
      }
    }

    /** The body of the inner loop. */
    method LookAt(net: Network, u: nat, d: int, v: nat, last: nat, ghost g: Net, ghost s: Search)
      returns (newLast: nat)
      requires g == net.Contents() && Shaped(g) && u <= g.stations && v <= g.stations
      requires Hold(last, s) && Sized(s) && last < MAX_STATIONS
      modifies visitingOrder, previousStation, shortestPathLength, visited, distance
      ensures Hold(newLast, Relax(g, s, u, d, v))
    {
      newLast := last;
      var connection := IndexOf(u, v);
      if net.connectionDestroyed[connection] {
        return;
      }
      Offer(net, u, d, v, last, g, s);
      if !visited[v] {
        visited[v] := true;
        visitingOrder[last] := v;
        newLast := last + 1;
      }
    }

    /** The inner loop: every neighbour of the station u, taken at distance d, in the order of its row. */
    method ScanNeighbours(net: Network, from: nat, u: nat, d: int, last: nat, ghost g: Net, ghost s: Search)
      returns (newLast: nat)
      requires Apart(net) && g == net.Contents()
      requires Hold(last, s) && FitsWhile(g, from, s, u)
      modifies visitingOrder, previousStation, shortestPathLength, visited, distance
      ensures Hold(newLast, Scan(g, s, u, d, 0))
    {
      newLast := last;
      var i := 0;
      ghost var t := s;
      while i < net.neighbourCount[u]
        invariant g == net.Contents() && 0 <= i <= g.counts[u]
        invariant Hold(newLast, t) && FitsWhile(g, from, t, u)
        invariant Scan(g, t, u, d, i) == Scan(g, s, u, d, 0)
      {
        var v := net.neighbourList[u, i];
        ghost var x := NeighbourIsOther(g, u, i);
        assert v == x;
        RelaxFits(g, from, t, u, d, v);
        QueueIsShort(g, from, t);
        newLast := LookAt(net, u, d, v, newLast, g, t);
        t := Relax(g, t, u, d, v);
        i := i + 1;
      }
    }

    /** The search's arrays are its own. */
    ghost predicate Apart(net: Network) {
      && visitingOrder != net.neighbourCount && visitingOrder != net.connectionLengths
      && previousStation != net.neighbourCount && previousStation != net.connectionLengths
      && shortestPathLength != net.neighbourCount && shortestPathLength != net.connectionLengths
      && visited != net.connectionDestroyed
    }

    /** The tables that the reconstruction reads are those of the state `s`. */
    ghost predicate Show(s: Search)
      reads previousStation, shortestPathLength, distance
    {
      previousStation[..] == s.previous && shortestPathLength[..] == s.hops && distance[..] == s.distance
    }

    /** The body of the outer loop. */
    method VisitNext(net: Network, from: nat, frontIdx: nat, lastIdx: nat, ghost g: Net, ghost t: Search)
      returns (newLast: nat)
      requires Apart(net) && g == net.Contents()
      requires Hold(lastIdx, t) && Fits(g, from, t) && t.front == frontIdx < lastIdx
      modifies visitingOrder, previousStation, shortestPathLength, visited, distance
      ensures t.order[t.front] <= g.stations && Hold(newLast, Visit(g, t))
    {
      var current := visitingOrder[frontIdx];
      assert current == t.order[t.front];
      TakenFits(g, from, t);
      newLast := ScanNeighbours(net, from, current, distance[current], lastIdx, g, Taken(t));
    }

    /** The outer loop. */
    method ExploreAll(net: Network, from: nat, ghost g: Net, ghost s: Search)
      requires Apart(net) && g == net.Contents() && Hold(1, s) && Fits(g, from, s) && s.front == 0
      modifies visitingOrder, previousStation, shortestPathLength, visited, distance
      ensures Show(Turns(g, from, s, MAX_STATIONS))
    {
      var frontIdx: nat, lastIdx: nat := 0, 1;
      ghost var t, goal := s, Turns(g, from, s, MAX_STATIONS);
      while frontIdx < lastIdx
        invariant g == net.Contents() && Hold(lastIdx, t) && t.front == frontIdx && Leads(g, from, t, goal)
        decreases MAX_STATIONS - frontIdx
      {
        lastIdx := VisitNext(net, from, frontIdx, lastIdx, g, t);
        t := OneTurn(g, from, t, goal);
        frontIdx := frontIdx + 1;
      }
      NoMoreTurns(g, from, t, goal);
    }
  }

  /** What a caller finds in `path` for a traced route: the connection indices of its steps. */
  ghost predicate Spells(path: seq<nat>, w: seq<nat>) {
    |w| - 1 <= |path| && forall i :: 0 <= i < |w| - 1 ==> path[i] == IndexOf(w[i], w[i + 1])
  }

  /**
   The walk back over the predecessor links. `strayed` reports that a link was looked up beyond the table, where the
   original is undefined.
   */
  method GatherPath(tables: Tables, to: nat, count: nat, path: array<nat>) returns (strayed: bool)
    requires path != tables.previousStation && count <= path.Length
    modifies path
    ensures strayed <==> |Trace(old(tables.previousStation[..]), to, count)| < count + 1
    ensures !strayed ==> Spells(path[..], Trace(old(tables.previousStation[..]), to, count))
  {
    ghost var previous := tables.previousStation[..];
    ghost var goal := Trace(previous, to, count);
    var it: nat := to;
    ghost var rest: seq<nat> := [];
    var i := count;
    while i > 0
      invariant 0 <= i <= count && tables.previousStation[..] == previous
      invariant goal == Trace(previous, it, i) + rest && |rest| == count - i
      invariant forall k :: i <= k < count ==> path[k] == IndexOf(([it] + rest)[k - i], rest[k - i])
    {
      if it >= tables.previousStation.Length {
        return true;
      }
      var before: nat := tables.previousStation[it];
      path[i - 1] := IndexOf(before, it);
      rest := [it] + rest;
      it := before;
      i := i - 1;
    }
    assert goal == [it] + rest;
    return false;
  }

  /** The answer in terms of the finished search. */
  ghost predicate FoundIn(s: Search, to: nat, count: int, strayed: bool, path: seq<nat>) {
    && Sized(s) && to < MAX_STATIONS
    && (count == -1 <==> s.distance[to] == -1)
    && (count != -1 ==>
          && count == s.hops[to]
          && (strayed <==> |Trace(s.previous, to, count)| < count + 1)
          && (!strayed ==> Spells(path, Trace(s.previous, to, count))))
  }

  /** The path spells a live walk of `count` connections, and no live walk is shorter. */
  ghost predicate IsShortestWay(net: Net, from: nat, to: nat, count: int, path: seq<nat>)
    requires Shaped(net)
  {
    exists w :: WalkBetween(net, w, from, to) && |w| == count + 1 && Spells(path, w)
                && IsShortest(net, from, to, WalkLength(net, w))
  }

  /** The path spells a live walk of `count` connections, and no live walk has fewer. */
  ghost predicate IsFewestWay(net: Net, from: nat, to: nat, count: int, path: seq<nat>)
    requires Shaped(net)
  {
    exists w :: WalkBetween(net, w, from, to) && |w| == count + 1 && Spells(path, w)
                && forall x :: WalkBetween(net, x, from, to) ==> |w| <= |x|
  }

  lemma {:induction false} ExactAnswerIsRight(net: Net, from: nat, to: nat, count: int, strayed: bool, path: seq<nat>)
    requires Searchable(net) && from <= net.stations && to <= net.stations && from != to
    requires FoundIn(Finished(net, from, to), to, count, strayed, path)
    requires RouteIsExact(net, from, Finished(net, from, to), to)
    ensures count != -1 && !strayed && IsShortestWay(net, from, to, count, path)
  {
    var s := Finished(net, from, to);
    var w := Trace(s.previous, to, count);
    assert WalkBetween(net, w, from, to);
  }

  lemma {:induction false} UniformAnswerIsFewest(net: Net, from: nat, to: nat, count: int, strayed: bool,
                                                 path: seq<nat>, length: nat)
    requires Searchable(net) && from <= net.stations && to <= net.stations && from != to
    requires FoundIn(Finished(net, from, to), to, count, strayed, path)
    requires count != -1 && length > 0 && Uniform(net, length)
    ensures !strayed && IsFewestWay(net, from, to, count, path)
  {
    var s := Finished(net, from, to);
    assert ReachIsGood(s, to);
    UniformRouteIsHopMinimal(net, from, to, length);
    var w := Trace(s.previous, to, count);
    assert WalkBetween(net, w, from, to);
  }

  /**
   What the answer means, whatever has gone stale: -1 exactly when there is no live walk; a path as long as the search
   has recorded, and no live walk shorter, exactly when a shortest one can be followed; and on networks of one length a
   walk of fewest connections.
   */
  lemma {:induction false} AnswerIsRight(net: Net, from: nat, to: nat, count: int, strayed: bool, path: seq<nat>)
    requires Searchable(net) && from <= net.stations && to <= net.stations && from != to
    requires FoundIn(Finished(net, from, to), to, count, strayed, path)
    ensures count == -1 <==> !exists w :: WalkBetween(net, w, from, to)
    ensures RouteIsExact(net, from, Finished(net, from, to), to) <==> ShortestCanBeFollowed(net, from, to)
    ensures ShortestCanBeFollowed(net, from, to) ==>
              count != -1 && !strayed && IsShortestWay(net, from, to, count, path)
    ensures count != -1 && (exists length: nat :: length > 0 && Uniform(net, length)) ==>
              !strayed && IsFewestWay(net, from, to, count, path)
  {
    var s := Finished(net, from, to);
    UnreachedIffNoWalk(net, from, s, to);
    RouteIsExactIff(net, from, to);
    if ShortestCanBeFollowed(net, from, to) {
      ExactAnswerIsRight(net, from, to, count, strayed, path);
    }
    if length: nat :| count != -1 && length > 0 && Uniform(net, length) {
      UniformAnswerIsFewest(net, from, to, count, strayed, path, length);
    }
  }

  /** The search itself: fresh tables, filled by the two loops. */
  method Explored(net: Network, from: nat, to: nat) returns (tables: Tables)
    requires Valid(net.Contents()) && from <= net.Contents().stations && to <= net.Contents().stations
    ensures fresh(tables.previousStation) && tables.Show(Searched(net.Contents(), from, to))
  {
    ghost var g := net.Contents();
    StartFits(g, from, to);
    tables := new Tables(from, to);
    tables.ExploreAll(net, from, g, Start(from, to));
  }

  /**
   The search a train asks for, between any two stations. The caller's array is not one of the network's. Asked for the
   way from a station to itself it never answers 0, and -1 exactly when no way of at least one connection leads back.
   */
  method FindShortestWay(net: Network, from: nat, to: nat, path: array<nat>) returns (count: int, strayed: bool)
    requires Searchable(net.Contents()) && path.Length == MAX_STATIONS
    requires (from <= net.stationCount ==> from <= SAFE_STATIONS) && (to <= net.stationCount ==> to <= SAFE_STATIONS)
    requires path != net.neighbourCount && path != net.connectionLengths
    modifies path
    ensures from > net.stationCount || to > net.stationCount ==> count == -1
    ensures from <= net.stationCount && to <= net.stationCount ==>
              FoundIn(Searched(net.Contents(), from, to), to, count, strayed, path[..])
    ensures from <= net.stationCount && to <= net.stationCount && from != to ==>
              FoundIn(Finished(net.Contents(), from, to), to, count, strayed, path[..])
    ensures from == to ==> count != 0
    ensures from == to <= net.stationCount ==> (count == -1 <==> !CanBeReached(net.Contents(), from, from))
  {
    if from > net.stationCount || to > net.stationCount {
      return -1, false;
    }
    ghost var g := net.Contents();
    ghost var s := Searched(g, from, to);
    var tables := Explored(net, from, to);
    QueueIsShort(g, from, s);
    if tables.distance[to] == -1 {
      count, strayed := -1, false;
    } else {
      count := tables.shortestPathLength[to];
      strayed := GatherPath(tables, to, count, path);
    }
    if from == to {
      StayingAnswer(g, from, count, strayed, path[..]);
    } else {
      SearchedIsFinished(g, from, to);
    }
  }

  /** What the answer means from a station to itself. */
  lemma {:induction false} StayingAnswer(net: Net, station: nat, count: int, strayed: bool, path: seq<nat>)
    requires Searchable(net) && station <= net.stations
    requires FoundIn(Searched(net, station, station), station, count, strayed, path)
    ensures count != 0 && (count == -1 <==> !CanBeReached(net, station, station))
  {
    NoWayToStay(net, station);
    WayBackIff(net, station);
  }

  /** What the loader builds from 16-bit lengths is a network the search is meant for. */
  lemma {:induction false} LoadedIsSearchable(records: seq<Record>, n: nat, stations: nat, net: Net)
    requires Built(records, n, stations, net) && LinesAreGood(records, stations, n) && NoLoops(records, n)
    requires forall k :: 0 <= k < n && k < |records| && records[k].length.Value? ==> records[k].length.n <= MAX_LENGTH
    ensures Searchable(net)
  {
    ValidIffLoopFree(net);
    forall a, b | 0 <= a <= net.stations && 0 <= b <= net.stations && b in Neighbours(net, a)
      ensures 0 < net.lengths[IndexOf(a, b)] <= MAX_LENGTH
    {
      var e: (nat, nat) := (a, b);
      assert e in Links(net);
      assert Backed(records, n, e);
      var k :| 0 <= k < n && Joins(records[k], e.0, e.1);
      assert Recorded(records[k], Links(net)) && LineIsGood(records, stations, k);
    }
  }
}
