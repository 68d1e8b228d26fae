/** What the search finds: always, when nothing goes stale, and on networks of uniform length. */
module RailwayRoutes {
  import opened Sequences
  import opened Railway
  import opened RailwaySearch
  import opened RailwaySearchInvariant

  /** The finished search from one station, for the sake of another. */
  ghost function Finished(net: Net, from: nat, to: nat): (s: Search)
    requires Searchable(net) && from <= net.stations && to <= net.stations && from != to
    ensures Inv(net, from, s) && s.front == |s.order|
  {
    StartInv(net, from, to);
    Explore(net, from, Start(from, to))
  }

  /** The end of the search: everything in the queue has been taken. */
  ghost predicate Done(net: Net, from: nat, s: Search) {
    Inv(net, from, s) && s.front == |s.order|
  }

  lemma {:induction false} ReachedHasTurn(net: Net, from: nat, s: Search, v: nat) returns (k: nat)
    requires Done(net, from, s) && v < MAX_STATIONS && s.distance[v] >= 0
    ensures k < s.front && s.order[k] == v && OfferedAll(net, s, k) && KeyIsGood(net, from, s, k)
  {
    assert ReachIsGood(s, v);
    k :| 0 <= k < |s.order| && s.order[k] == v;
  }

  lemma {:induction false} WalkPrefix(net: Net, w: seq<nat>, from: nat, to: nat)
    requires Shaped(net) && WalkBetween(net, w, from, to) && |w| > 1
    ensures WalkBetween(net, w[..|w| - 1], from, w[|w| - 2]) && Live(net, w[|w| - 2], to)
    ensures WalkLength(net, w) == WalkLength(net, w[..|w| - 1]) + Len(net, w[|w| - 2], to)
  {}

  /** Along any live walk every station is reached. */
  lemma {:induction false} WalkIsReached(net: Net, from: nat, s: Search, w: seq<nat>, v: nat)
    requires Done(net, from, s) && WalkBetween(net, w, from, v)
    ensures v <= net.stations && s.distance[v] >= 0
    decreases |w|
  {
    if |w| > 1 {
      var u := w[|w| - 2];
      WalkPrefix(net, w, from, v);
      WalkIsReached(net, from, s, w[..|w| - 1], u);
      var k := ReachedHasTurn(net, from, s, u);
      assert Offered(net, s, k, v);
    }
  }

  /** For arbitrary positive lengths: a station is left without a distance exactly when no live walk leads there. */
  lemma {:induction false} UnreachedIffNoWalk(net: Net, from: nat, s: Search, v: nat)
    requires Done(net, from, s) && v <= net.stations
    ensures s.distance[v] == -1 <==> !exists w :: WalkBetween(net, w, from, v)
  {
    assert ReachIsGood(s, v) && DistanceIsReal(net, from, s, v);
    if s.distance[v] != -1 {
      var w :| WalkBetween(net, w, from, v) && WalkLength(net, w) == s.distance[v];
    } else if w :| WalkBetween(net, w, from, v) {
      WalkIsReached(net, from, s, w, v);
    }
  }

  /** The stations that have a distance. */
  ghost function Reached(s: Search): set<nat>
    requires Sized(s)
  {
    set v | 0 <= v < MAX_STATIONS && s.distance[v] >= 0
  }

  lemma {:induction false} DistinctFitsSet(q: seq<nat>, t: set<nat>)
    requires Distinct(q) && forall i :: 0 <= i < |q| ==> q[i] in t
    ensures |q| <= |t|
  {
    if q != [] {
      var n := |q| - 1;
      forall i | 0 <= i < n
        ensures q[..n][i] in t - {q[n]}
      {}
      DistinctFitsSet(q[..n], t - {q[n]});
    }
  }

  /** At most one turn for every reachable station, and one more for the start. */
  lemma {:induction false} TurnsAreFew(net: Net, from: nat, s: Search)
    requires Done(net, from, s)
    ensures s.front <= |Reached(s)| + 1
  {
    forall i | 0 <= i < |s.order[1..]|
      ensures s.order[1..][i] in Reached(s)
    {
      assert ReachIsGood(s, s.order[i + 1]);
    }
    DistinctFitsSet(s.order[1..], Reached(s));
  }

  /** Following the predecessor links. That this is well defined is their acyclicity: every link lowers the distance. */
  ghost function Chain(net: Net, from: nat, s: Search, v: nat): (w: seq<nat>)
    requires Core(net, from, s) && v < MAX_STATIONS && s.distance[v] >= 0
    ensures |w| > 0
    decreases s.distance[v]
  {
    assert LinkIsGood(net, from, s, v);
    if v == from then [v]
    else
      assert 0 < Len(net, s.previous[v], v);
      Chain(net, from, s, s.previous[v]) + [v]
  }

  /**
   The predecessor links of a reached station always lead back to the start along a live walk no longer than the
   recorded distance; while nothing is stale the walk has exactly that length and exactly the recorded number of hops.
   */
  lemma {:induction false} ChainIsAWalk(net: Net, from: nat, s: Search, v: nat)
    requires Core(net, from, s) && v < MAX_STATIONS && s.distance[v] >= 0
    ensures var w := Chain(net, from, s, v);
            && WalkBetween(net, w, from, v) && WalkLength(net, w) <= s.distance[v]
            && (!s.stale ==> WalkLength(net, w) == s.distance[v] && |w| == s.hops[v] + 1)
    decreases s.distance[v]
  {
    assert LinkIsGood(net, from, s, v);
    if v != from {
      var p := s.previous[v];
      assert 0 < Len(net, p, v);
      ChainIsAWalk(net, from, s, p);
      var w := Chain(net, from, s, v);
      assert w[..|w| - 1] == Chain(net, from, s, p);
    }
  }

  /** No live connection would still improve anything. */
  ghost predicate NothingTense(net: Net, s: Search)
    requires Shaped(net) && Sized(s)
  {
    forall u, v :: 0 <= u <= net.stations && 0 <= v <= net.stations && s.distance[u] >= 0 && Live(net, u, v) ==>
                     0 <= s.distance[v] <= s.distance[u] + Len(net, u, v)
  }

  lemma {:induction false} SlackBoundsWalks(net: Net, from: nat, s: Search, w: seq<nat>, v: nat)
    requires Done(net, from, s) && NothingTense(net, s) && WalkBetween(net, w, from, v)
    ensures v <= net.stations && 0 <= s.distance[v] <= WalkLength(net, w)
    decreases |w|
  {
    if |w| > 1 {
      WalkPrefix(net, w, from, v);
      SlackBoundsWalks(net, from, s, w[..|w| - 1], w[|w| - 2]);
    }
  }

  lemma {:induction false} TenseIsNotShortest(net: Net, from: nat, s: Search, u: nat, v: nat)
    requires Done(net, from, s) && u <= net.stations && v <= net.stations && s.distance[u] >= 0 && Live(net, u, v)
    requires s.distance[v] > s.distance[u] + Len(net, u, v)
    ensures !IsShortest(net, from, v, s.distance[v])
  {
    assert DistanceIsReal(net, from, s, u);
    WalkExtends(net, from, u, s.distance[u], v);
    var w :| WalkBetween(net, w, from, v) && WalkLength(net, w) == s.distance[u] + Len(net, u, v);
  }

  /** The finished distances are all shortest if and only if no live connection is tense. */
  lemma {:induction false} ShortestIffNothingTense(net: Net, from: nat, s: Search)
    requires Done(net, from, s)
    ensures NothingTense(net, s)
       <==> forall v :: 0 <= v <= net.stations && s.distance[v] >= 0 ==> IsShortest(net, from, v, s.distance[v])
  {
    if NothingTense(net, s) {
      forall v | 0 <= v <= net.stations && s.distance[v] >= 0
        ensures IsShortest(net, from, v, s.distance[v])
      {
        assert DistanceIsReal(net, from, s, v);
        forall w | WalkBetween(net, w, from, v)
          ensures s.distance[v] <= WalkLength(net, w)
        {
          SlackBoundsWalks(net, from, s, w, v);
        }
      }
    } else {
      var u, v :| 0 <= u <= net.stations && 0 <= v <= net.stations && s.distance[u] >= 0 && Live(net, u, v)
                  && !(0 <= s.distance[v] <= s.distance[u] + Len(net, u, v));
      var k := ReachedHasTurn(net, from, s, u);
      assert Offered(net, s, k, v);
      TenseIsNotShortest(net, from, s, u, v);
    }
  }

  lemma {:induction false} FreshIsSlack(net: Net, from: nat, s: Search)
    requires Done(net, from, s) && !s.stale
    ensures NothingTense(net, s)
  {
    forall u, v | 0 <= u <= net.stations && 0 <= v <= net.stations && s.distance[u] >= 0 && Live(net, u, v)
      ensures 0 <= s.distance[v] <= s.distance[u] + Len(net, u, v)
    {
      var k := ReachedHasTurn(net, from, s, u);
      assert Offered(net, s, k, v);
    }
  }

  /**
   The exact condition: no station is improved after it was taken if and only if every station, whenever it is taken
   from the queue, already has the length of a shortest live walk.
   */
  lemma {:induction false} FreshIffTakenAtShortest(net: Net, from: nat, s: Search)
    requires Done(net, from, s)
    ensures !s.stale <==> forall k :: 0 <= k < s.front ==> IsShortest(net, from, s.order[k], s.keys[k])
  {
    if s.stale {
      var k :| 0 <= k < s.front && Overtaken(s, k);
      assert KeyIsGood(net, from, s, k) && DistanceIsReal(net, from, s, s.order[k]);
      var w :| WalkBetween(net, w, from, s.order[k]) && WalkLength(net, w) == s.distance[s.order[k]];
      assert !IsShortest(net, from, s.order[k], s.keys[k]);
    } else {
      FreshIsSlack(net, from, s);
      ShortestIffNothingTense(net, from, s);
      forall k | 0 <= k < s.front
        ensures IsShortest(net, from, s.order[k], s.keys[k])
      {
        assert KeyIsGood(net, from, s, k);
      }
    }
  }

  /** Walking back over `n` links from a station, as the reconstruction does; it ends early where there is no link. */
  function Trace(previous: seq<nat>, it: nat, n: nat): (w: seq<nat>)
    ensures 0 < |w| <= n + 1 && w[|w| - 1] == it
    decreases n
  {
    if n == 0 || it >= |previous| then [it] else Trace(previous, previous[it], n - 1) + [it]
  }

  /**
   The traced route begins at the start exactly when the recorded hops are the number of links back to it; it is then
   the chain of links itself. Recording the hops once and the links afresh is what lets the two drift apart.
   */
  lemma {:induction false} TraceReachesStartIff(net: Net, from: nat, s: Search, v: nat, n: nat)
    requires Core(net, from, s) && v < MAX_STATIONS && s.distance[v] >= 0
    ensures Trace(s.previous, v, n)[0] == from <==> n + 1 == |Chain(net, from, s, v)|
    ensures n + 1 == |Chain(net, from, s, v)| ==> Trace(s.previous, v, n) == Chain(net, from, s, v)
    decreases s.distance[v]
  {
    assert LinkIsGood(net, from, s, v);
    if v == from {
      if n > 0 {
        assert Trace(s.previous, s.previous[v], n - 1) == [INVALID_STATION];
      }
    } else if n > 0 {
      assert 0 < Len(net, s.previous[v], v);
      TraceReachesStartIff(net, from, s, s.previous[v], n - 1);
    }
  }

  /**
   Conditional exactness. In a search in which no taken station is improved, the traced route is a live walk from the
   start to the destination, of exactly the returned number of connections, and no live walk is shorter.
   */
  lemma {:induction false} FreshRouteIsShortest(net: Net, from: nat, s: Search, to: nat)
    requires Done(net, from, s) && !s.stale && to <= net.stations && s.distance[to] >= 0
    ensures var w := Trace(s.previous, to, s.hops[to]);
            && WalkBetween(net, w, from, to) && |w| == s.hops[to] + 1
            && WalkLength(net, w) == s.distance[to] && IsShortest(net, from, to, WalkLength(net, w))
  {
    ChainIsAWalk(net, from, s, to);
    TraceReachesStartIff(net, from, s, to, s.hops[to]);
    FreshIsSlack(net, from, s);
    ShortestIffNothingTense(net, from, s);
  }
}
