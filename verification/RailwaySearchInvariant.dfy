/** What the search keeps at every turn of its inner loop, for arbitrary positive lengths. */
module RailwaySearchInvariant {
  import opened Sequences
  import opened Railway
  import opened RailwaySearch

  /** The queue: it begins with the start, then lists the visited stations, each once. */
  ghost predicate QueueIsGood(net: Net, from: nat, s: Search)
    requires Sized(s)
  {
    && |s.order| > 0 && s.order[0] == from
    && (forall k :: 0 <= k < |s.order| ==> s.order[k] <= net.stations)
    && Distinct(s.order[1..])
  }

  /** A station is marked visited exactly when it is in the queue behind the first place. */
  ghost predicate MarkIsGood(s: Search, v: nat)
    requires Sized(s) && |s.order| > 0 && v < MAX_STATIONS
  {
    s.visited[v] <==> v in s.order[1..]
  }

  /** A station has a distance exactly when it is in the queue. */
  ghost predicate ReachIsGood(s: Search, v: nat)
    requires Sized(s) && v < MAX_STATIONS
  {
    s.distance[v] >= -1 && (s.distance[v] == -1 <==> v !in s.order)
  }

  ghost predicate StartIsGood(from: nat, s: Search)
    requires Sized(s)
  {
    from < MAX_STATIONS && s.distance[from] == 0 && s.hops[from] == 0 && s.previous[from] == INVALID_STATION
  }

  /**
   The predecessor link of a reached station other than the start: a live connection from a station already taken,
   along which the distance drops by at least the length, and by exactly the length while nothing is stale.
   */
  ghost predicate LinkIsGood(net: Net, from: nat, s: Search, v: nat)
    requires Shaped(net) && Sized(s) && v < MAX_STATIONS
  {
    s.distance[v] >= 0 && v != from ==>
      var p := s.previous[v];
      && p < MAX_STATIONS && p in s.order[..s.front] && Live(net, p, v)
      && 0 <= s.distance[p] && s.distance[p] + Len(net, p, v) <= s.distance[v]
      && (!s.stale ==> s.distance[v] == s.distance[p] + Len(net, p, v) && s.hops[v] == s.hops[p] + 1)
  }

  /** A recorded distance is the length of a live walk; distances and hops stay within what the turns so far can add. */
  ghost predicate DistanceIsReal(net: Net, from: nat, s: Search, v: nat)
    requires Shaped(net) && Sized(s) && v < MAX_STATIONS
  {
    && (s.distance[v] >= 0 ==> HasWalk(net, from, v, s.distance[v]))
    && s.distance[v] <= MAX_LENGTH * s.front && s.hops[v] <= s.front
  }

  /** What is known of the station taken in turn k. */
  ghost predicate KeyIsGood(net: Net, from: nat, s: Search, k: nat)
    requires Shaped(net) && Sized(s) && k < s.front
  {
    && 0 <= s.distance[s.order[k]] <= s.keys[k]
    && HasWalk(net, from, s.order[k], s.keys[k])
    && (!s.stale ==> s.distance[s.order[k]] == s.keys[k])
  }

  ghost predicate Core(net: Net, from: nat, s: Search) {
    && Searchable(net) && Sized(s) && from <= net.stations
    && QueueIsGood(net, from, s) && StartIsGood(from, s)
    && (forall v :: 0 <= v < MAX_STATIONS ==> MarkIsGood(s, v))
    && (forall v :: 0 <= v < MAX_STATIONS ==> ReachIsGood(s, v))
    && (forall v :: 0 <= v < MAX_STATIONS ==> LinkIsGood(net, from, s, v))
    && (forall v :: 0 <= v < MAX_STATIONS ==> DistanceIsReal(net, from, s, v))
    && (forall k :: 0 <= k < s.front ==> KeyIsGood(net, from, s, k))
    && (s.stale ==> exists k :: 0 <= k < s.front && Overtaken(s, k))
  }

  /** The station taken in turn k has been improved since. */
  ghost predicate Overtaken(s: Search, k: nat)
    requires Sized(s) && k < s.front
  {
    s.distance[s.order[k]] < s.keys[k]
  }

  /** The station taken in turn k has offered v its distance. */
  ghost predicate Offered(net: Net, s: Search, k: nat, v: nat)
    requires Shaped(net) && Sized(s) && k < s.front
  {
    Live(net, s.order[k], v) ==> 0 <= s.distance[v] <= s.keys[k] + Len(net, s.order[k], v)
  }

  ghost predicate OfferedAll(net: Net, s: Search, k: nat)
    requires Shaped(net) && Sized(s) && k < s.front
  {
    forall v :: 0 <= v <= net.stations ==> Offered(net, s, k, v)
  }

  /** Between two turns of the outer loop. */
  ghost predicate Inv(net: Net, from: nat, s: Search) {
    Core(net, from, s) && forall k :: 0 <= k < s.front ==> OfferedAll(net, s, k)
  }

  /** The station u is being scanned, having been taken last, at distance d. */
  ghost predicate Scanning(net: Net, from: nat, s: Search, u: nat, d: int) {
    && Core(net, from, s) && s.front > 0
    && u == s.order[s.front - 1] && d == s.keys[s.front - 1] == s.distance[u]
    && d <= MAX_LENGTH * (s.front - 1) && s.hops[u] <= s.front - 1
  }

  lemma {:induction false} StartInv(net: Net, from: nat, to: nat)
    requires Searchable(net) && from <= net.stations && to <= net.stations && from != to
    ensures Inv(net, from, Start(from, to))
  {
    var s := Start(from, to);
    assert s.order[1..] == [];
    forall v | 0 <= v < MAX_STATIONS
      ensures DistanceIsReal(net, from, s, v)
    {
      if v == from {
        assert WalkBetween(net, [from], from, from) && WalkLength(net, [from]) == 0;
      }
    }
  }

  lemma {:induction false} TakenKeepsCore(net: Net, from: nat, s: Search)
    requires Core(net, from, s) && s.front < |s.order|
    ensures Scanning(net, from, Taken(s), s.order[s.front], s.distance[s.order[s.front]])
  {
    var t, u := Taken(s), s.order[s.front];
    assert t.order[..t.front] == s.order[..s.front] + [u];
    assert ReachIsGood(s, u) && DistanceIsReal(net, from, s, u);
    forall v | 0 <= v < MAX_STATIONS
      ensures MarkIsGood(t, v) && ReachIsGood(t, v) && LinkIsGood(net, from, t, v) && DistanceIsReal(net, from, t, v)
    {
      assert MarkIsGood(s, v) && ReachIsGood(s, v) && LinkIsGood(net, from, s, v) && DistanceIsReal(net, from, s, v);
    }
    forall k | 0 <= k < t.front
      ensures KeyIsGood(net, from, t, k)
    {
      assert k < s.front ==> KeyIsGood(net, from, s, k);
    }
    if s.stale {
      var k :| 0 <= k < s.front && Overtaken(s, k);
      assert Overtaken(t, k);
    }
  }

  /** The neighbour v of the station u being scanned, over an intact connection. */
  ghost predicate Looking(net: Net, from: nat, s: Search, u: nat, d: int, v: nat) {
    && Scanning(net, from, s, u, d)
    && v <= net.stations && v in Neighbours(net, u) && !net.broken[IndexOf(u, v)]
  }

  lemma {:induction false} LookingFacts(net: Net, from: nat, s: Search, u: nat, d: int, v: nat)
    requires Looking(net, from, s, u, d, v)
    ensures u <= net.stations && v != u && Live(net, u, v) && 0 < Len(net, u, v) <= MAX_LENGTH
    ensures 0 <= d && HasWalk(net, from, u, d) && u in s.order[..s.front]
    ensures v == from ==> !Improves(net, s, u, d, v)
  {
    assert RowIsGood(net, u);
    assert KeyIsGood(net, from, s, s.front - 1);
    assert s.order[..s.front][s.front - 1] == u;
  }

  lemma {:induction false} QueueGrows(q: seq<nat>, v: nat)
    requires |q| > 0 && Distinct(q[1..]) && v !in q[1..]
    ensures (q + [v])[1..] == q[1..] + [v] && Distinct((q + [v])[1..])
  {
    var r := q[1..] + [v];
    assert (q + [v])[1..] == r;
    forall i, j | 0 <= i < j < |r|
      ensures r[i] != r[j]
    {
      assert q[1..][i] in q[1..];
    }
  }

  /** What one look at a neighbour does to queue and marks. */
  lemma {:induction false} LookQueues(net: Net, s: Search, u: nat, d: int, v: nat, t: Search)
    requires Shaped(net) && Sized(s) && u <= net.stations && v <= net.stations && t == Relax(net, s, u, d, v)
    ensures (t.order == s.order && t.visited == s.visited)
            || (!s.visited[v] && t.order == s.order + [v] && t.visited == s.visited[v := true])
    ensures s.order <= t.order
  {}

  lemma {:induction false} QueueStaysGood(net: Net, from: nat, s: Search, u: nat, d: int, v: nat)
    requires Shaped(net) && Sized(s) && u <= net.stations && v <= net.stations
    requires QueueIsGood(net, from, s) && MarkIsGood(s, v)
    ensures QueueIsGood(net, from, Relax(net, s, u, d, v))
  {
    var t := Relax(net, s, u, d, v);
    LookQueues(net, s, u, d, v, t);
    if t.order != s.order {
      QueueGrows(s.order, v);
    }
  }

  lemma {:induction false} MarkStaysGood(net: Net, s: Search, u: nat, d: int, v: nat, x: nat)
    requires Shaped(net) && Sized(s) && u <= net.stations && v <= net.stations && x < MAX_STATIONS
    requires |s.order| > 0 && MarkIsGood(s, v) && MarkIsGood(s, x)
    ensures var t := Relax(net, s, u, d, v); |t.order| > 0 && MarkIsGood(t, x)
  {
    var t := Relax(net, s, u, d, v);
    LookQueues(net, s, u, d, v, t);
    if t.order != s.order {
      assert t.order[1..] == s.order[1..] + [v];
    }
  }

  lemma {:induction false} RelaxKeepsQueue(net: Net, from: nat, s: Search, u: nat, d: int, v: nat)
    requires Looking(net, from, s, u, d, v)
    ensures var t := Relax(net, s, u, d, v);
            && QueueIsGood(net, from, t) && StartIsGood(from, t) && s.order <= t.order
            && t.order[..t.front] == s.order[..s.front]
  {
    LookingFacts(net, from, s, u, d, v);
    assert MarkIsGood(s, v);
    QueueStaysGood(net, from, s, u, d, v);
    LookQueues(net, s, u, d, v, Relax(net, s, u, d, v));
  }

  lemma {:induction false} RelaxKeepsMark(net: Net, from: nat, s: Search, u: nat, d: int, v: nat, x: nat)
    requires Looking(net, from, s, u, d, v) && x < MAX_STATIONS
    ensures MarkIsGood(Relax(net, s, u, d, v), x)
  {
    assert MarkIsGood(s, v) && MarkIsGood(s, x);
    MarkStaysGood(net, s, u, d, v, x);
  }

  lemma {:induction false} RelaxKeepsReach(net: Net, from: nat, s: Search, u: nat, d: int, v: nat, x: nat)
    requires Looking(net, from, s, u, d, v) && x < MAX_STATIONS
    ensures ReachIsGood(Relax(net, s, u, d, v), x)
  {
    LookingFacts(net, from, s, u, d, v);
    assert MarkIsGood(s, v) && ReachIsGood(s, v) && ReachIsGood(s, x);
    assert s.order == [s.order[0]] + s.order[1..];
  }

  /** A station that is not improved keeps its link; if its predecessor is, that predecessor was taken: stale. */
  lemma {:induction false} RelaxKeepsOtherLink(net: Net, from: nat, s: Search, u: nat, d: int, v: nat, x: nat)
    requires Looking(net, from, s, u, d, v) && x < MAX_STATIONS && (x != v || !Improves(net, s, u, d, v))
    ensures LinkIsGood(net, from, Relax(net, s, u, d, v), x)
  {
    LookingFacts(net, from, s, u, d, v);
    assert s.order[..s.front] == Relax(net, s, u, d, v).order[..s.front];
    assert LinkIsGood(net, from, s, x);
  }

  lemma {:induction false} RelaxSetsLink(net: Net, from: nat, s: Search, u: nat, d: int, v: nat)
    requires Looking(net, from, s, u, d, v) && Improves(net, s, u, d, v)
    ensures LinkIsGood(net, from, Relax(net, s, u, d, v), v)
  {
    LookingFacts(net, from, s, u, d, v);
    var t := Relax(net, s, u, d, v);
    assert s.order[..s.front] == t.order[..s.front];
    assert t.previous[v] == u && t.distance[v] == d + Len(net, u, v) && t.distance[u] == d;
  }

  lemma {:induction false} RelaxKeepsLink(net: Net, from: nat, s: Search, u: nat, d: int, v: nat, x: nat)
    requires Looking(net, from, s, u, d, v) && x < MAX_STATIONS
    ensures LinkIsGood(net, from, Relax(net, s, u, d, v), x)
  {
    if x == v && Improves(net, s, u, d, v) {
      RelaxSetsLink(net, from, s, u, d, v);
    } else {
      RelaxKeepsOtherLink(net, from, s, u, d, v, x);
    }
  }

  lemma {:induction false} RelaxKeepsDistance(net: Net, from: nat, s: Search, u: nat, d: int, v: nat, x: nat)
    requires Looking(net, from, s, u, d, v) && x < MAX_STATIONS
    ensures DistanceIsReal(net, from, Relax(net, s, u, d, v), x)
  {
    LookingFacts(net, from, s, u, d, v);
    assert DistanceIsReal(net, from, s, x);
    if x == v {
      WalkExtends(net, from, u, d, v);
    }
  }

  lemma {:induction false} RelaxKeepsKey(net: Net, from: nat, s: Search, u: nat, d: int, v: nat, k: nat)
    requires Looking(net, from, s, u, d, v) && k < s.front
    ensures KeyIsGood(net, from, Relax(net, s, u, d, v), k)
    ensures Overtaken(s, k) ==> Overtaken(Relax(net, s, u, d, v), k)
  {
    LookingFacts(net, from, s, u, d, v);
    RelaxKeepsQueue(net, from, s, u, d, v);
    assert KeyIsGood(net, from, s, k);
    assert s.order[..s.front][k] == s.order[k];
  }

  lemma {:induction false} RelaxShowsStale(net: Net, from: nat, s: Search, u: nat, d: int, v: nat)
    requires Looking(net, from, s, u, d, v) && Relax(net, s, u, d, v).stale
    ensures exists k :: 0 <= k < s.front && Overtaken(Relax(net, s, u, d, v), k)
  {
    var t := Relax(net, s, u, d, v);
    RelaxKeepsQueue(net, from, s, u, d, v);
    if s.stale {
      var k :| 0 <= k < s.front && Overtaken(s, k);
      RelaxKeepsKey(net, from, s, u, d, v, k);
    } else {
      var k :| 0 <= k < s.front && s.order[..s.front][k] == v;
      assert KeyIsGood(net, from, s, k);
      assert Overtaken(t, k);
    }
  }

  lemma {:induction false} RelaxKeepsCore(net: Net, from: nat, s: Search, u: nat, d: int, v: nat)
    requires Looking(net, from, s, u, d, v)
    ensures Scanning(net, from, Relax(net, s, u, d, v), u, d)
  {
    var t := Relax(net, s, u, d, v);
    LookingFacts(net, from, s, u, d, v);
    RelaxKeepsQueue(net, from, s, u, d, v);
    forall x | 0 <= x < MAX_STATIONS
      ensures MarkIsGood(t, x) && ReachIsGood(t, x) && LinkIsGood(net, from, t, x) && DistanceIsReal(net, from, t, x)
    {
      RelaxKeepsMark(net, from, s, u, d, v, x);
      RelaxKeepsReach(net, from, s, u, d, v, x);
      RelaxKeepsLink(net, from, s, u, d, v, x);
      RelaxKeepsDistance(net, from, s, u, d, v, x);
    }
    forall k | 0 <= k < t.front
      ensures KeyIsGood(net, from, t, k)
    {
      RelaxKeepsKey(net, from, s, u, d, v, k);
    }
    if t.stale {
      RelaxShowsStale(net, from, s, u, d, v);
    }
  }

  /** Distances only drop, and that of v to the length of the way through u or below. */
  lemma {:induction false} DistancesDrop(net: Net, s: Search, u: nat, d: nat, v: nat, x: nat)
    requires Shaped(net) && Sized(s) && u <= net.stations && v <= net.stations && x < MAX_STATIONS
    requires Live(net, u, v) && s.distance[v] >= -1
    ensures var t := Relax(net, s, u, d, v);
            && (s.distance[x] >= 0 ==> 0 <= t.distance[x] <= s.distance[x])
            && 0 <= t.distance[v] <= d + Len(net, u, v)
  {}

  /** Offers stand: distances only drop, keys and queue places stay. */
  lemma {:induction false} RelaxKeepsOffer(net: Net, from: nat, s: Search, u: nat, d: int, v: nat, k: nat, x: nat)
    requires Looking(net, from, s, u, d, v) && k < s.front && x <= net.stations
    requires Offered(net, s, k, x) || (k == s.front - 1 && x == v)
    ensures Offered(net, Relax(net, s, u, d, v), k, x)
  {
    LookingFacts(net, from, s, u, d, v);
    RelaxKeepsQueue(net, from, s, u, d, v);
    assert s.order[..s.front][k] == s.order[k];
    assert ReachIsGood(s, v);
    DistancesDrop(net, s, u, d, v, x);
  }

  lemma {:induction false} RelaxKeepsAllOffers(net: Net, from: nat, s: Search, u: nat, d: int, v: nat, k: nat)
    requires Looking(net, from, s, u, d, v) && k < s.front && OfferedAll(net, s, k)
    ensures OfferedAll(net, Relax(net, s, u, d, v), k)
  {
    forall x | 0 <= x <= net.stations
      ensures Offered(net, Relax(net, s, u, d, v), k, x)
    {
      RelaxKeepsOffer(net, from, s, u, d, v, k, x);
    }
  }

  /** Mid-scan: earlier stations have offered to all their neighbours, the current one to its first i. */
  ghost predicate OfferedSoFar(net: Net, s: Search, u: nat, i: nat)
    requires Shaped(net) && Sized(s) && s.front > 0 && u <= net.stations && i <= net.counts[u]
  {
    && (forall k :: 0 <= k < s.front - 1 ==> OfferedAll(net, s, k))
    && (forall j :: 0 <= j < i ==> OfferedTo(net, s, Neighbours(net, u)[j]))
  }

  ghost predicate OfferedTo(net: Net, s: Search, v: nat)
    requires Shaped(net) && Sized(s) && s.front > 0
  {
    v <= net.stations && Offered(net, s, s.front - 1, v)
  }

  lemma {:induction false} LookingKeepsOffers(net: Net, from: nat, s: Search, u: nat, d: int, i: nat)
    requires Scanning(net, from, s, u, d) && u <= net.stations && i < net.counts[u] && OfferedSoFar(net, s, u, i)
    requires Looking(net, from, s, u, d, Neighbours(net, u)[i])
    ensures OfferedSoFar(net, Relax(net, s, u, d, Neighbours(net, u)[i]), u, i + 1)
  {
    var v := Neighbours(net, u)[i];
    var t := Relax(net, s, u, d, v);
    forall k | 0 <= k < s.front - 1
      ensures OfferedAll(net, t, k)
    {
      RelaxKeepsAllOffers(net, from, s, u, d, v, k);
    }
    forall j | 0 <= j < i + 1
      ensures OfferedTo(net, t, Neighbours(net, u)[j])
    {
      assert RowIsGood(net, u) && Neighbours(net, u)[j] in Neighbours(net, u);
      assert j < i ==> OfferedTo(net, s, Neighbours(net, u)[j]);
      RelaxKeepsOffer(net, from, s, u, d, v, s.front - 1, Neighbours(net, u)[j]);
    }
  }

  lemma {:induction false} RelaxKeepsOffers(net: Net, from: nat, s: Search, u: nat, d: int, i: nat)
    requires Scanning(net, from, s, u, d) && u <= net.stations && i < net.counts[u] && OfferedSoFar(net, s, u, i)
    ensures var v := Neighbours(net, u)[i];
            && v <= net.stations && v in Neighbours(net, u)
            && Scanning(net, from, Relax(net, s, u, d, v), u, d)
            && OfferedSoFar(net, Relax(net, s, u, d, v), u, i + 1)
  {
    assert RowIsGood(net, u) && Neighbours(net, u)[i] in Neighbours(net, u);
    var v := Neighbours(net, u)[i];
    if net.broken[IndexOf(u, v)] {
      assert OfferedTo(net, s, v);
    } else {
      RelaxKeepsCore(net, from, s, u, d, v);
      LookingKeepsOffers(net, from, s, u, d, i);
    }
  }

  lemma {:induction false} ScanKeepsInv(net: Net, from: nat, s: Search, u: nat, d: int, i: nat)
    requires Scanning(net, from, s, u, d) && u <= net.stations && i <= net.counts[u] && OfferedSoFar(net, s, u, i)
    ensures Inv(net, from, Scan(net, s, u, d, i))
    decreases net.counts[u] - i
  {
    if i == net.counts[u] {
      var k := s.front - 1;
      forall v | 0 <= v <= net.stations
        ensures Offered(net, s, k, v)
      {
        if v in Neighbours(net, u) {
          var j :| 0 <= j < i && Neighbours(net, u)[j] == v;
          assert OfferedTo(net, s, Neighbours(net, u)[j]);
        }
      }
      assert OfferedAll(net, s, k);
    } else {
      RelaxKeepsOffers(net, from, s, u, d, i);
      ScanKeepsInv(net, from, Relax(net, s, u, d, Neighbours(net, u)[i]), u, d, i + 1);
    }
  }

  lemma {:induction false} TakenKeepsOffers(net: Net, from: nat, s: Search)
    requires Inv(net, from, s) && s.front < |s.order|
    ensures OfferedSoFar(net, Taken(s), s.order[s.front], 0)
  {
    var t := Taken(s);
    forall k | 0 <= k < s.front
      ensures OfferedAll(net, t, k)
    {
      assert OfferedAll(net, s, k);
      forall x | 0 <= x <= net.stations
        ensures Offered(net, t, k, x)
      {
        assert Offered(net, s, k, x);
      }
    }
  }

  lemma {:induction false} VisitKeepsInv(net: Net, from: nat, s: Search)
    requires Inv(net, from, s) && s.front < |s.order|
    ensures Inv(net, from, Visit(net, s))
  {
    TakenKeepsCore(net, from, s);
    TakenKeepsOffers(net, from, s);
    ScanKeepsInv(net, from, Taken(s), s.order[s.front], s.distance[s.order[s.front]], 0);
  }

  /** The queue holds at most every station once, and the start once more. */
  lemma {:induction false} QueueIsShort(net: Net, from: nat, s: Search)
    requires Sized(s) && QueueIsGood(net, from, s)
    ensures |s.order| <= net.stations + 2
  {
    Pigeonhole(s.order[1..], net.stations + 1);
  }

  /** The whole search. */
  ghost function Explore(net: Net, from: nat, s: Search): (t: Search)
    requires Inv(net, from, s)
    ensures Inv(net, from, t) && t.front == |t.order|
    decreases MAX_STATIONS - s.front
  {
    if s.front == |s.order| then s
    else
      VisitKeepsInv(net, from, s);
      QueueIsShort(net, from, s);
      Explore(net, from, Visit(net, s))
  }
}
