/**
 What the search records, for arbitrary positive lengths: the least length of a live walk that follows the queue except
 for its last connection. So for each destination the answer is exact if and only if one of its shortest walks does so,
 whatever becomes of other stations and whether or not anything goes stale.
 */
module RailwayExact {
  import opened Railway
  import opened RailwaySearch
  import opened RailwaySearchInvariant
  import opened RailwayRoutes
  import opened RailwayQueueOrder

  /** The queue places rise along the walk, the last step excepted. */
  ghost predicate AlmostRising(q: seq<nat>, w: seq<nat>)
    requires |w| > 0
  {
    Rising(q, w[..|w| - 1])
  }

  /** A shortest walk to v is one that the search can follow. */
  ghost predicate ShortestCanBeFollowed(net: Net, from: nat, v: nat)
    requires Valid(net) && from <= net.stations
  {
    exists w :: WalkBetween(net, w, from, v) && AlmostRising(QueueOrder(net, from), w)
                && IsShortest(net, from, v, WalkLength(net, w))
  }

  /**
   The link of a reached station was set when its predecessor was taken, at the distance it had then; and as long as it
   is tight the hops count it.
   */
  ghost predicate LinkIsDated(net: Net, from: nat, s: Search, v: nat)
    requires Shaped(net) && Sized(s) && v < MAX_STATIONS
  {
    s.distance[v] >= 0 && v != from ==>
      var p := s.previous[v];
      && p < MAX_STATIONS && Live(net, p, v) && Place(s.order, p) < s.front
      && s.distance[v] == s.keys[Place(s.order, p)] + Len(net, p, v)
      && (s.distance[v] == s.distance[p] + Len(net, p, v) ==> s.hops[v] == s.hops[p] + 1)
  }

  /** Station j of the queue gave station k its distance. */
  ghost predicate Gives(net: Net, s: Search, j: nat, k: nat)
    requires Shaped(net) && Sized(s) && j < k < s.front
  {
    Live(net, s.order[j], s.order[k]) && s.keys[k] == s.keys[j] + Len(net, s.order[j], s.order[k])
  }

  ghost predicate KeyIsGiven(net: Net, from: nat, s: Search, k: nat)
    requires Shaped(net) && Sized(s) && k < s.front
  {
    s.order[k] != from ==> exists j :: 0 <= j < k && Gives(net, s, j, k)
  }

  ghost predicate Dated(net: Net, from: nat, s: Search)
    requires Shaped(net) && Sized(s)
  {
    && (s.front > 0 ==> s.keys[0] == 0)
    && (forall v :: 0 <= v < MAX_STATIONS ==> LinkIsDated(net, from, s, v))
    && (forall k :: 0 <= k < s.front ==> KeyIsGiven(net, from, s, k))
  }

  lemma {:induction false} StartIsDated(net: Net, from: nat, to: nat)
    requires Shaped(net) && from < MAX_STATIONS && to < MAX_STATIONS && from != to
    ensures Dated(net, from, Start(from, to))
  {}

  lemma {:induction false} TakenKeepsDated(net: Net, from: nat, s: Search)
    requires Core(net, from, s) && s.front < |s.order| && Dated(net, from, s)
    ensures Dated(net, from, Taken(s))
  {
    var t, u := Taken(s), s.order[s.front];
    forall v | 0 <= v < MAX_STATIONS
      ensures LinkIsDated(net, from, t, v)
    {
      assert LinkIsDated(net, from, s, v);
    }
    forall k | 0 <= k < t.front
      ensures KeyIsGiven(net, from, t, k)
    {
      if k < s.front {
        assert KeyIsGiven(net, from, s, k);
        if s.order[k] != from {
          var j :| 0 <= j < k && Gives(net, s, j, k);
          assert Gives(net, t, j, k);
        }
      } else if u != from {
        assert ReachIsGood(s, u) && LinkIsDated(net, from, s, u);
        assert Gives(net, t, Place(s.order, s.previous[u]), k);
      }
    }
  }

  /** The station being scanned has the distance of its first place in the queue. */
  lemma {:induction false} CurrentKey(net: Net, from: nat, s: Search, u: nat, d: int)
    requires Scanning(net, from, s, u, d) && s.keys[0] == 0
    ensures Place(s.order, u) < s.front && s.keys[Place(s.order, u)] == d
  {
    if u == from {
      assert Place(s.order, u) == 0;
    } else {
      OnlyPlace(net, from, s, s.front - 1);
    }
  }

  lemma {:induction false} NewLinkIsDated(net: Net, from: nat, s: Search, u: nat, d: int, v: nat)
    requires Looking(net, from, s, u, d, v) && Improves(net, s, u, d, v) && s.keys[0] == 0
    ensures LinkIsDated(net, from, Relax(net, s, u, d, v), v)
  {
    var t := Relax(net, s, u, d, v);
    LookingFacts(net, from, s, u, d, v);
    CurrentKey(net, from, s, u, d);
    LookQueues(net, s, u, d, v, t);
    PlaceStays(s.order, t.order, u);
    assert t.previous[v] == u && t.distance[v] == d + Len(net, u, v) && t.distance[u] == d;
    assert t.hops[v] == s.hops[u] + 1 && t.hops[u] == s.hops[u];
  }

  lemma {:induction false} OldLinkIsDated(net: Net, from: nat, s: Search, u: nat, d: int, v: nat, x: nat)
    requires Looking(net, from, s, u, d, v) && x < MAX_STATIONS && (x != v || !Improves(net, s, u, d, v))
    requires LinkIsDated(net, from, s, x)
    ensures LinkIsDated(net, from, Relax(net, s, u, d, v), x)
  {
    var t := Relax(net, s, u, d, v);
    LookQueues(net, s, u, d, v, t);
    assert t.distance[x] == s.distance[x] && t.previous[x] == s.previous[x] && t.hops[x] == s.hops[x];
    if s.distance[x] >= 0 && x != from {
      var p := s.previous[x];
      PlaceStays(s.order, t.order, p);
      assert LinkIsGood(net, from, s, x);
      if p == v && Improves(net, s, u, d, v) {
        assert t.distance[p] < s.distance[p];
      }
    }
  }

  lemma {:induction false} RelaxKeepsDated(net: Net, from: nat, s: Search, u: nat, d: int, v: nat)
    requires Looking(net, from, s, u, d, v) && Dated(net, from, s)
    ensures Dated(net, from, Relax(net, s, u, d, v))
  {
    var t := Relax(net, s, u, d, v);
    LookQueues(net, s, u, d, v, t);
    forall x | 0 <= x < MAX_STATIONS
      ensures LinkIsDated(net, from, t, x)
    {
      assert LinkIsDated(net, from, s, x);
      if x == v && Improves(net, s, u, d, v) {
        NewLinkIsDated(net, from, s, u, d, v);
      } else {
        OldLinkIsDated(net, from, s, u, d, v, x);
      }
    }
    forall k | 0 <= k < t.front
      ensures KeyIsGiven(net, from, t, k)
    {
      assert KeyIsGiven(net, from, s, k);
      if s.order[k] != from {
        var j :| 0 <= j < k && Gives(net, s, j, k);
        assert Gives(net, t, j, k);
      }
    }
  }

  lemma {:induction false} ScanKeepsDated(net: Net, from: nat, s: Search, u: nat, d: int, i: nat)
    requires Scanning(net, from, s, u, d) && u <= net.stations && i <= net.counts[u] && OfferedSoFar(net, s, u, i)
    requires Dated(net, from, s)
    ensures Dated(net, from, Scan(net, s, u, d, i))
    decreases net.counts[u] - i
  {
    if i < net.counts[u] {
      var v := Neighbours(net, u)[i];
      RelaxKeepsOffers(net, from, s, u, d, i);
      if !net.broken[IndexOf(u, v)] {
        RelaxKeepsDated(net, from, s, u, d, v);
      }
      ScanKeepsDated(net, from, Relax(net, s, u, d, v), u, d, i + 1);
    }
  }

  lemma {:induction false} ExploreKeepsDated(net: Net, from: nat, s: Search)
    requires Inv(net, from, s) && Dated(net, from, s)
    ensures Dated(net, from, Explore(net, from, s))
    decreases MAX_STATIONS - s.front
  {
    if s.front < |s.order| {
      TakenKeepsCore(net, from, s);
      TakenKeepsOffers(net, from, s);
      TakenKeepsDated(net, from, s);
      ScanKeepsDated(net, from, Taken(s), s.order[s.front], s.distance[s.order[s.front]], 0);
      VisitKeepsInv(net, from, s);
      QueueIsShort(net, from, s);
      ExploreKeepsDated(net, from, Visit(net, s));
    }
  }

  /** All that is known of a finished search. */
  ghost predicate Settled(net: Net, from: nat, s: Search) {
    Done(net, from, s) && KeysAreOffered(net, from, s) && Dated(net, from, s)
  }

  lemma {:induction false} FinishedIsSettled(net: Net, from: nat, to: nat)
    requires Searchable(net) && from <= net.stations && to <= net.stations && from != to
    ensures Settled(net, from, Finished(net, from, to))
  {
    StartInv(net, from, to);
    StartIsDated(net, from, to);
    ExploreKeepsDated(net, from, Start(from, to));
    FinishedKeepsBoth(net, from, to);
  }

  /** A station was taken no later in distance than any walk that follows the queue allows. */
  lemma {:induction false} KeyIsLeast(net: Net, from: nat, s: Search, w: seq<nat>, v: nat)
    requires Settled(net, from, s) && WalkBetween(net, w, from, v) && Rising(s.order, w)
    ensures Place(s.order, v) < s.front && s.keys[Place(s.order, v)] <= WalkLength(net, w)
    decreases |w|
  {
    WalkIsReached(net, from, s, w, v);
    assert ReachIsGood(s, v) && KeyIsOffered(net, from, s, Place(s.order, v));
    if |w| > 1 {
      var u := w[|w| - 2];
      WalkPrefix(net, w, from, v);
      KeyIsLeast(net, from, s, w[..|w| - 1], u);
      assert Place(s.order, w[|w| - 2]) < Place(s.order, w[|w| - 2 + 1]);
    }
  }

  lemma {:induction false} DistanceIsLeast(net: Net, from: nat, s: Search, w: seq<nat>, v: nat)
    requires Settled(net, from, s) && WalkBetween(net, w, from, v) && AlmostRising(s.order, w)
    ensures v <= net.stations && 0 <= s.distance[v] <= WalkLength(net, w)
  {
    WalkIsReached(net, from, s, w, v);
    if |w| > 1 {
      var u := w[|w| - 2];
      WalkPrefix(net, w, from, v);
      KeyIsLeast(net, from, s, w[..|w| - 1], u);
      assert Offered(net, s, Place(s.order, u), v) by {
        assert OfferedAll(net, s, Place(s.order, u));
      }
    }
  }

  lemma {:induction false} WalkGrows(net: Net, from: nat, w: seq<nat>, u: nat, v: nat)
    requires Shaped(net) && WalkBetween(net, w, from, u) && Live(net, u, v)
    ensures WalkBetween(net, w + [v], from, v) && WalkLength(net, w + [v]) == WalkLength(net, w) + Len(net, u, v)
    ensures (w + [v])[..|w|] == w
  {
    assert (w + [v])[..|w|] == w;
  }

  /** That distance is the length of a walk that follows the queue. */
  lemma {:induction false} KeyIsAttained(net: Net, from: nat, s: Search, k: nat) returns (w: seq<nat>)
    requires Settled(net, from, s) && k < s.front
    ensures WalkBetween(net, w, from, s.order[k]) && Rising(s.order, w) && WalkLength(net, w) == s.keys[k]
  {
    assert KeyIsGiven(net, from, s, k) && KeyIsOffered(net, from, s, k);
    if s.order[k] == from {
      w := [from];
    } else {
      var j :| 0 <= j < k && Gives(net, s, j, k);
      var x := KeyIsAttained(net, from, s, j);
      WalkGrows(net, from, x, s.order[j], s.order[k]);
      OnlyPlace(net, from, s, k);
      w := x + [s.order[k]];
    }
  }

  lemma {:induction false} DistanceIsAttained(net: Net, from: nat, s: Search, v: nat) returns (w: seq<nat>)
    requires Settled(net, from, s) && v <= net.stations && s.distance[v] >= 0
    ensures WalkBetween(net, w, from, v) && AlmostRising(s.order, w) && WalkLength(net, w) == s.distance[v]
  {
    if v == from {
      w := [from];
    } else {
      assert LinkIsDated(net, from, s, v);
      var p := s.previous[v];
      var x := KeyIsAttained(net, from, s, Place(s.order, p));
      WalkGrows(net, from, x, p, v);
      w := x + [v];
    }
  }

  /**
   For all positive lengths: the recorded distance of a station is the least length of a live walk that follows the
   queue except for its last connection.
   */
  lemma {:induction false} RecordedIsLeast(net: Net, from: nat, to: nat, v: nat)
    requires Searchable(net) && from <= net.stations && to <= net.stations && from != to && v <= net.stations
    ensures var d := Finished(net, from, to).distance[v];
            var q := QueueOrder(net, from);
            && (d >= 0 ==> exists w :: WalkBetween(net, w, from, v) && AlmostRising(q, w) && WalkLength(net, w) == d)
            && (forall w :: WalkBetween(net, w, from, v) && AlmostRising(q, w) ==> 0 <= d <= WalkLength(net, w))
  {
    var s := Finished(net, from, to);
    FinishedIsSettled(net, from, to);
    SearchFollowsOrder(net, from, to);
    if s.distance[v] >= 0 {
      var w := DistanceIsAttained(net, from, s, v);
    }
    forall w | WalkBetween(net, w, from, v) && AlmostRising(s.order, w)
      ensures 0 <= s.distance[v] <= WalkLength(net, w)
    {
      DistanceIsLeast(net, from, s, w, v);
    }
  }

  /** So it is the length of a shortest live walk if and only if a shortest live walk can be followed. */
  lemma {:induction false} RecordedIsShortestIff(net: Net, from: nat, to: nat, v: nat)
    requires Searchable(net) && from <= net.stations && to <= net.stations && from != to && v <= net.stations
    ensures var d := Finished(net, from, to).distance[v];
            d >= 0 && IsShortest(net, from, v, d) <==> ShortestCanBeFollowed(net, from, v)
  {
    var s := Finished(net, from, to);
    RecordedIsLeast(net, from, to, v);
    assert DistanceIsReal(net, from, s, v);
  }

  /** Shortest distances hand on: the link is tight and the predecessor's distance is shortest too. */
  lemma {:induction false} ShortestIsTight(net: Net, from: nat, s: Search, v: nat)
    requires Settled(net, from, s) && v <= net.stations && v != from && s.distance[v] >= 0
    requires IsShortest(net, from, v, s.distance[v])
    ensures var p := s.previous[v];
            && p <= net.stations && Live(net, p, v) && 0 <= s.distance[p] && IsShortest(net, from, p, s.distance[p])
            && s.distance[v] == s.distance[p] + Len(net, p, v) && s.hops[v] == s.hops[p] + 1 && 0 < Len(net, p, v)
  {
    var p := s.previous[v];
    assert LinkIsGood(net, from, s, v) && LinkIsDated(net, from, s, v) && DistanceIsReal(net, from, s, p);
    forall x | WalkBetween(net, x, from, p)
      ensures s.distance[p] <= WalkLength(net, x)
    {
      WalkGrows(net, from, x, p, v);
    }
    var y :| WalkBetween(net, y, from, p) && WalkLength(net, y) == s.distance[p];
    WalkGrows(net, from, y, p, v);
  }

  lemma {:induction false} ShortestChain(net: Net, from: nat, s: Search, v: nat)
    requires Settled(net, from, s) && v <= net.stations && s.distance[v] >= 0
    requires IsShortest(net, from, v, s.distance[v])
    ensures |Chain(net, from, s, v)| == s.hops[v] + 1
    decreases s.distance[v]
  {
    if v != from {
      ShortestIsTight(net, from, s, v);
      ShortestChain(net, from, s, s.previous[v]);
    }
  }

  /**
   The traced route is a live walk of the recorded number of connections and the recorded length, and none is shorter.
   */
  ghost predicate RouteIsExact(net: Net, from: nat, s: Search, to: nat)
    requires Shaped(net) && Sized(s) && to < MAX_STATIONS
  {
    var w := Trace(s.previous, to, s.hops[to]);
    && s.distance[to] >= 0 && WalkBetween(net, w, from, to) && |w| == s.hops[to] + 1
    && WalkLength(net, w) == s.distance[to] && IsShortest(net, from, to, WalkLength(net, w))
  }

  /** The exact condition for one destination, told from rows, damage, lengths and start, stale or not. */
  lemma {:induction false} RouteIsExactIff(net: Net, from: nat, to: nat)
    requires Searchable(net) && from <= net.stations && to <= net.stations && from != to
    ensures RouteIsExact(net, from, Finished(net, from, to), to) <==> ShortestCanBeFollowed(net, from, to)
  {
    var s := Finished(net, from, to);
    RecordedIsShortestIff(net, from, to, to);
    if ShortestCanBeFollowed(net, from, to) {
      FinishedIsSettled(net, from, to);
      ShortestChain(net, from, s, to);
      ChainIsAWalk(net, from, s, to);
      TraceReachesStartIff(net, from, s, to, s.hops[to]);
    }
  }
}
