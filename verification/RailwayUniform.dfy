/** Networks whose connections all have one length: there the search never goes stale and minimises connections. */
module RailwayUniform {
  import opened Railway
  import opened RailwaySearch
  import opened RailwaySearchInvariant
  import opened RailwayRoutes

  ghost predicate Uniform(net: Net, length: nat)
    requires Shaped(net)
  {
    forall u, v :: 0 <= u <= net.stations && 0 <= v <= net.stations && Live(net, u, v) ==> Len(net, u, v) == length
  }

  /** The distance of the station in place k of the queue. */
  function At(s: Search, k: nat): int
    requires Sized(s) && k < |s.order|
  {
    s.distance[s.order[k]]
  }

  /** Distances never drop along the queue, except at the second place of the start. */
  ghost predicate Monotone(from: nat, s: Search)
    requires Sized(s)
  {
    forall j, k :: 0 <= j < k < |s.order| && s.order[k] != from ==> At(s, j) <= At(s, k)
  }

  /** From place `low` on, nothing in the queue is more than one length ahead of anything else. */
  ghost predicate Narrow(from: nat, s: Search, low: int, length: nat)
    requires Sized(s)
  {
    forall i, j :: 0 <= i < |s.order| && 0 <= j < |s.order| && low <= i && s.order[i] != from ==>
                     At(s, j) <= At(s, i) + length
  }

  ghost predicate FirstRing(s: Search, length: nat)
    requires Sized(s)
  {
    s.front <= 1 ==> forall j :: 0 <= j < |s.order| ==> At(s, j) <= length
  }

  ghost predicate Layered(from: nat, s: Search, low: int, length: nat) {
    Sized(s) && !s.stale && Monotone(from, s) && Narrow(from, s, low, length) && FirstRing(s, length)
  }

  /** Mid-scan on a uniform network. */
  ghost predicate Ringed(net: Net, from: nat, s: Search, u: nat, d: int, v: nat, length: nat) {
    && Looking(net, from, s, u, d, v) && Uniform(net, length)
    && Layered(from, s, s.front - 1, length)
    && (s.front > 1 ==> OfferedAll(net, s, 0))
  }

  /** On a uniform network nothing that has a distance is ever improved. */
  lemma {:induction false} OnlyNewImproves(net: Net, from: nat, s: Search, u: nat, d: int, v: nat, length: nat)
    requires Ringed(net, from, s, u, d, v, length)
    ensures u <= net.stations && Len(net, u, v) == length
    ensures Improves(net, s, u, d, v) <==> s.distance[v] == -1
    ensures s.distance[v] == -1 && u == from ==> s.front == 1
  {
    LookingFacts(net, from, s, u, d, v);
    assert ReachIsGood(s, v) && KeyIsGood(net, from, s, 0) && KeyIsGood(net, from, s, s.front - 1);
    assert s.front > 1 ==> Offered(net, s, 0, v);
    if s.distance[v] >= 0 {
      var j :| 0 <= j < |s.order| && s.order[j] == v;
      assert u != from || s.front == 1 ==> At(s, j) <= d + length;
    }
  }

  /** The whole queue lies within one length of the station being scanned when a new station is found. */
  lemma {:induction false} QueueIsBehind(net: Net, from: nat, s: Search, u: nat, d: int, v: nat, length: nat, j: nat)
    requires Ringed(net, from, s, u, d, v, length) && s.distance[v] == -1 && j < |s.order|
    ensures At(s, j) <= d + length
    ensures s.front - 1 <= j && s.order[j] != from ==> d <= At(s, j)
  {
    OnlyNewImproves(net, from, s, u, d, v, length);
    assert At(s, s.front - 1) == d;
  }

  /** A new station joins the queue one length behind the one being scanned; nothing else changes. */
  lemma {:induction false} NewStationJoins(net: Net, from: nat, s: Search, u: nat, d: int, v: nat, length: nat)
    requires Ringed(net, from, s, u, d, v, length) && s.distance[v] == -1
    ensures var t := Relax(net, s, u, d, v);
            && Sized(t) && t.order == s.order + [v] && At(t, |s.order|) == d + length
            && t.front == s.front && !t.stale
            && forall j :: 0 <= j < |s.order| ==> At(t, j) == At(s, j)
  {
    OnlyNewImproves(net, from, s, u, d, v, length);
    assert ReachIsGood(s, v) && MarkIsGood(s, v);
    assert s.order == [s.order[0]] + s.order[1..];
    assert forall j :: 0 <= j < |s.order| ==> s.order[j] in s.order;
  }

  lemma {:induction false} NewStationKeepsLayers(net: Net, from: nat, s: Search, u: nat, d: int, v: nat, length: nat)
    requires Ringed(net, from, s, u, d, v, length) && s.distance[v] == -1
    ensures Layered(from, Relax(net, s, u, d, v), s.front - 1, length)
  {
    var t, n := Relax(net, s, u, d, v), |s.order|;
    NewStationJoins(net, from, s, u, d, v, length);
    forall j | 0 <= j < n
      ensures At(s, j) <= d + length
      ensures s.front - 1 <= j && s.order[j] != from ==> d <= At(s, j)
    {
      QueueIsBehind(net, from, s, u, d, v, length, j);
    }
  }

  lemma {:induction false} OldStationKeepsLayers(net: Net, from: nat, s: Search, u: nat, d: int, v: nat, length: nat)
    requires Ringed(net, from, s, u, d, v, length) && s.distance[v] != -1
    ensures Layered(from, Relax(net, s, u, d, v), s.front - 1, length)
  {
    var t := Relax(net, s, u, d, v);
    OnlyNewImproves(net, from, s, u, d, v, length);
    assert ReachIsGood(s, v) && MarkIsGood(s, v);
    assert s.order == [s.order[0]] + s.order[1..];
    assert t.distance == s.distance && t.stale == s.stale;
    assert forall j :: 0 <= j < |s.order| ==> At(t, j) == At(s, j);
    assert t.order == s.order || (v == from && t.order == s.order + [from]);
    assert At(s, 0) == 0;
  }

  lemma {:induction false} ScanKeepsLayers(net: Net, from: nat, s: Search, u: nat, d: int, i: nat, length: nat)
    requires Scanning(net, from, s, u, d) && u <= net.stations && i <= net.counts[u] && OfferedSoFar(net, s, u, i)
    requires Uniform(net, length) && Layered(from, s, s.front - 1, length)
    ensures Layered(from, Scan(net, s, u, d, i), s.front - 1, length)
    decreases net.counts[u] - i
  {
    if i < net.counts[u] {
      var v := Neighbours(net, u)[i];
      RelaxKeepsOffers(net, from, s, u, d, i);
      if !net.broken[IndexOf(u, v)] {
        if s.distance[v] == -1 {
          NewStationKeepsLayers(net, from, s, u, d, v, length);
        } else {
          OldStationKeepsLayers(net, from, s, u, d, v, length);
        }
      }
      ScanKeepsLayers(net, from, Relax(net, s, u, d, v), u, d, i + 1, length);
    }
  }

  lemma {:induction false} VisitKeepsLayers(net: Net, from: nat, s: Search, length: nat)
    requires Inv(net, from, s) && s.front < |s.order| && Uniform(net, length) && Layered(from, s, s.front, length)
    ensures Layered(from, Visit(net, s), s.front + 1, length)
  {
    var t := Taken(s);
    TakenKeepsCore(net, from, s);
    TakenKeepsOffers(net, from, s);
    assert forall k :: 0 <= k < |t.order| ==> At(t, k) == At(s, k);
    if s.front == 0 {
      assert forall j :: 0 <= j < |t.order| ==> At(t, j) <= length;
    }
    ScanKeepsLayers(net, from, t, s.order[s.front], s.distance[s.order[s.front]], 0, length);
  }

  lemma {:induction false} ExploreKeepsLayers(net: Net, from: nat, s: Search, length: nat)
    requires Inv(net, from, s) && Uniform(net, length) && Layered(from, s, s.front, length)
    ensures Layered(from, Explore(net, from, s), |Explore(net, from, s).order|, length)
    decreases MAX_STATIONS - s.front
  {
    if s.front < |s.order| {
      VisitKeepsInv(net, from, s);
      QueueIsShort(net, from, s);
      VisitKeepsLayers(net, from, s, length);
      ExploreKeepsLayers(net, from, Visit(net, s), length);
    }
  }

  /**
   On a network of uniform length the search is never stale, and its queue is monotone in distance except for the one
   place where the start comes a second time.
   */
  lemma {:induction false} UniformIsFresh(net: Net, from: nat, to: nat, length: nat)
    requires Searchable(net) && from <= net.stations && to <= net.stations && from != to && Uniform(net, length)
    ensures var s := Finished(net, from, to); !s.stale && Monotone(from, s)
  {
    StartInv(net, from, to);
    ExploreKeepsLayers(net, from, Start(from, to), length);
  }

  lemma {:induction false} UniformWalkLength(net: Net, w: seq<nat>, length: nat)
    requires Shaped(net) && IsWalk(net, w) && Uniform(net, length)
    ensures WalkLength(net, w) == length * (|w| - 1)
    decreases |w|
  {
    if |w| > 1 {
      UniformWalkLength(net, w[..|w| - 1], length);
      assert Live(net, w[|w| - 2], w[|w| - 1]);
    }
  }

  /** So there the returned number of connections is the least that any live walk needs. */
  lemma {:induction false} UniformRouteIsHopMinimal(net: Net, from: nat, to: nat, length: nat)
    requires Searchable(net) && from <= net.stations && to <= net.stations && from != to
    requires Uniform(net, length) && length > 0
    ensures var s := Finished(net, from, to);
            s.distance[to] >= 0 ==>
              var w := Trace(s.previous, to, s.hops[to]);
              && WalkBetween(net, w, from, to) && |w| == s.hops[to] + 1
              && forall x :: WalkBetween(net, x, from, to) ==> |w| <= |x|
  {
    var s := Finished(net, from, to);
    UniformIsFresh(net, from, to, length);
    if s.distance[to] >= 0 {
      FreshRouteIsShortest(net, from, s, to);
      var w := Trace(s.previous, to, s.hops[to]);
      UniformWalkLength(net, w, length);
      forall x | WalkBetween(net, x, from, to)
        ensures |w| <= |x|
      {
        UniformWalkLength(net, x, length);
        Scaled(length, |w| - 1, |x| - 1);
      }
    }
  }

  lemma {:induction false} Scaled(k: nat, m: int, n: int)
    requires k > 0
    ensures m > n ==> k * m > k * n
  {
    if m > n {
      assert k * m == k * n + k * (m - n);
    }
  }
}
