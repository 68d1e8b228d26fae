/**
 When the route search is exact, told from the network alone. Which station is queued when depends on the rows, on the
 broken connections and on the start, and never on the lengths. Nothing goes stale exactly when every station that can
 be reached has a shortest walk along which the queue places rise.
 */
module RailwayQueueOrder {
  import opened Railway
  import opened RailwaySearch
  import opened RailwaySearchInvariant
  import opened RailwayRoutes

  /** The rows list stations only. */
  ghost predicate Tabled(net: Net) {
    Shaped(net) && forall u, i :: 0 <= u <= net.stations && 0 <= i < net.counts[u] ==> net.rows[u][i] <= net.stations
  }

  lemma {:induction false} ValidIsTabled(net: Net)
    requires Valid(net)
    ensures Tabled(net)
  {
    forall u, i | 0 <= u <= net.stations && 0 <= i < net.counts[u]
      ensures net.rows[u][i] <= net.stations
    {
      assert RowIsGood(net, u) && Neighbours(net, u)[i] in Neighbours(net, u);
    }
  }

  /** The queue once u has looked at v: an entry in the first place does not count as visited. */
  function Queued(net: Net, q: seq<nat>, u: nat, v: nat): (p: seq<nat>)
    requires Shaped(net) && |q| > 0 && u <= net.stations && v <= net.stations
    ensures |p| > 0
  {
    if net.broken[IndexOf(u, v)] || v in q[1..] then q else q + [v]
  }

  /** The queue once u has looked at its neighbours from the i-th on. */
  ghost function RowQueued(net: Net, q: seq<nat>, u: nat, i: nat): (p: seq<nat>)
    requires Tabled(net) && |q| > 0 && u <= net.stations && i <= net.counts[u]
    ensures |p| > 0
    decreases net.counts[u] - i
  {
    if i == net.counts[u] then q else RowQueued(net, Queued(net, q, u, net.rows[u][i]), u, i + 1)
  }

  /** The queue after some turns from place `front` on; all its entries are stations. */
  ghost function QueueAfter(net: Net, q: seq<nat>, front: nat, turns: nat): seq<nat>
    requires Tabled(net) && |q| > 0
    decreases turns
  {
    if turns == 0 || front >= |q| || q[front] > net.stations then q
    else QueueAfter(net, RowQueued(net, q, q[front], 0), front + 1, turns - 1)
  }

  /** The order in which a search from a station queues the others. No search makes more turns than there are places. */
  ghost function QueueOrder(net: Net, from: nat): seq<nat>
    requires Valid(net) && from <= net.stations
  {
    ValidIsTabled(net);
    QueueAfter(net, [from], 0, MAX_STATIONS)
  }

  lemma {:induction false} RowIgnoresLengths(net: Net, other: Net, q: seq<nat>, u: nat, i: nat)
    requires Tabled(net) && Tabled(other) && other == net.(lengths := other.lengths)
    requires |q| > 0 && u <= net.stations && i <= net.counts[u]
    ensures RowQueued(net, q, u, i) == RowQueued(other, q, u, i)
    decreases net.counts[u] - i
  {
    if i < net.counts[u] {
      RowIgnoresLengths(net, other, Queued(net, q, u, net.rows[u][i]), u, i + 1);
    }
  }

  lemma {:induction false} TurnsIgnoreLengths(net: Net, other: Net, q: seq<nat>, front: nat, turns: nat)
    requires Tabled(net) && Tabled(other) && other == net.(lengths := other.lengths) && |q| > 0
    ensures QueueAfter(net, q, front, turns) == QueueAfter(other, q, front, turns)
    decreases turns
  {
    if turns > 0 && front < |q| && q[front] <= net.stations {
      RowIgnoresLengths(net, other, q, q[front], 0);
      TurnsIgnoreLengths(net, other, RowQueued(net, q, q[front], 0), front + 1, turns - 1);
    }
  }

  /** Two networks that differ only in lengths are searched in the same order. */
  lemma {:induction false} OrderIgnoresLengths(net: Net, other: Net, from: nat)
    requires Valid(net) && Valid(other) && other == net.(lengths := other.lengths) && from <= net.stations
    ensures QueueOrder(net, from) == QueueOrder(other, from)
  {
    ValidIsTabled(net);
    ValidIsTabled(other);
    TurnsIgnoreLengths(net, other, [from], 0, MAX_STATIONS);
  }

  lemma {:induction false} RowExtends(net: Net, q: seq<nat>, u: nat, i: nat)
    requires Tabled(net) && |q| > 0 && u <= net.stations && i <= net.counts[u]
    ensures q <= RowQueued(net, q, u, i)
    decreases net.counts[u] - i
  {
    if i < net.counts[u] {
      RowExtends(net, Queued(net, q, u, net.rows[u][i]), u, i + 1);
    }
  }

  lemma {:induction false} RelaxQueues(net: Net, from: nat, s: Search, u: nat, d: int, v: nat)
    requires Core(net, from, s) && u <= net.stations && v <= net.stations
    ensures Relax(net, s, u, d, v).order == Queued(net, s.order, u, v)
  {
    assert MarkIsGood(s, v);
  }

  lemma {:induction false} ScanQueues(net: Net, from: nat, s: Search, u: nat, d: int, i: nat)
    requires Scanning(net, from, s, u, d) && u <= net.stations && i <= net.counts[u] && OfferedSoFar(net, s, u, i)
    requires Tabled(net)
    ensures Scan(net, s, u, d, i).order == RowQueued(net, s.order, u, i)
    decreases net.counts[u] - i
  {
    if i < net.counts[u] {
      var v := Neighbours(net, u)[i];
      RelaxKeepsOffers(net, from, s, u, d, i);
      RelaxQueues(net, from, s, u, d, v);
      ScanQueues(net, from, Relax(net, s, u, d, v), u, d, i + 1);
    }
  }

  lemma {:induction false} VisitQueues(net: Net, from: nat, s: Search)
    requires Inv(net, from, s) && s.front < |s.order| && Tabled(net)
    ensures |s.order| > 0 && s.order[s.front] <= net.stations
    ensures Visit(net, s).order == RowQueued(net, s.order, s.order[s.front], 0)
  {
    TakenKeepsCore(net, from, s);
    TakenKeepsOffers(net, from, s);
    ScanQueues(net, from, Taken(s), s.order[s.front], s.distance[s.order[s.front]], 0);
  }

  /** One turn of the search, and the same turn of the bare queue. */
  lemma {:induction false} ExploreOnce(net: Net, from: nat, s: Search, turns: nat) returns (t: Search)
    requires Inv(net, from, s) && Tabled(net) && s.front < |s.order| && turns > 0
    ensures Inv(net, from, t) && t.front == s.front + 1 && Explore(net, from, s) == Explore(net, from, t)
    ensures QueueAfter(net, s.order, s.front, turns) == QueueAfter(net, t.order, t.front, turns - 1)
  {
    t := Visit(net, s);
    QueueIsShort(net, from, s);
    VisitKeepsInv(net, from, s);
    VisitQueues(net, from, s);
  }

  lemma {:induction false} ExploreQueues(net: Net, from: nat, s: Search, e: Search, turns: nat)
    requires Inv(net, from, s) && Tabled(net) && MAX_STATIONS <= s.front + turns && e == Explore(net, from, s)
    ensures e.order == QueueAfter(net, s.order, s.front, turns)
    decreases turns
  {
    if s.front < |s.order| {
      QueueIsShort(net, from, s);
      var t := ExploreOnce(net, from, s, turns);
      ExploreQueues(net, from, t, e, turns - 1);
    }
  }

  /** The search queues the stations in the order that the network alone determines. */
  lemma {:induction false} SearchFollowsOrder(net: Net, from: nat, to: nat)
    requires Searchable(net) && from <= net.stations && to <= net.stations && from != to
    ensures Finished(net, from, to).order == QueueOrder(net, from)
  {
    StartInv(net, from, to);
    ValidIsTabled(net);
    ExploreQueues(net, from, Start(from, to), Finished(net, from, to), MAX_STATIONS);
  }

  /** The first place of v in the queue, or one past the queue. */
  function Place(q: seq<nat>, v: nat): (p: nat)
    ensures p <= |q| && (p < |q| <==> v in q) && (p < |q| ==> q[p] == v)
    ensures forall k :: 0 <= k < p ==> q[k] != v
  {
    if q == [] || q[0] == v then 0 else 1 + Place(q[1..], v)
  }

  lemma {:induction false} PlaceStays(q: seq<nat>, p: seq<nat>, v: nat)
    requires q <= p && v in q
    ensures Place(p, v) == Place(q, v)
  {
    var k := Place(q, v);
    assert p[k] == v;
  }

  /** Along the walk the queue places rise. */
  ghost predicate Rising(q: seq<nat>, w: seq<nat>) {
    forall i :: 0 <= i < |w| - 1 ==> Place(q, w[i]) < Place(q, w[i + 1])
  }

  ghost predicate HasRisingShortest(net: Net, q: seq<nat>, from: nat, v: nat)
    requires Shaped(net)
  {
    exists w :: WalkBetween(net, w, from, v) && Rising(q, w) && IsShortest(net, from, v, WalkLength(net, w))
  }

  /** Every station that a live walk reaches has a shortest one that follows the queue. */
  ghost predicate ShortestWaysRise(net: Net, from: nat)
    requires Valid(net) && from <= net.stations
  {
    forall v, w :: WalkBetween(net, w, from, v) ==> HasRisingShortest(net, QueueOrder(net, from), from, v)
  }

  /** While nothing is stale, a station's predecessor has its place before it. */
  ghost predicate LinkRises(from: nat, s: Search, v: nat)
    requires Sized(s) && v < MAX_STATIONS
  {
    !s.stale && s.distance[v] >= 0 && v != from ==> Place(s.order, s.previous[v]) < Place(s.order, v)
  }

  ghost predicate LinksRise(from: nat, s: Search)
    requires Sized(s)
  {
    forall v :: 0 <= v < MAX_STATIONS ==> LinkRises(from, s, v)
  }

  lemma {:induction false} NewLinkRises(net: Net, from: nat, s: Search, u: nat, d: int, v: nat)
    requires Looking(net, from, s, u, d, v) && Improves(net, s, u, d, v) && !Relax(net, s, u, d, v).stale
    ensures LinkRises(from, Relax(net, s, u, d, v), v)
  {
    var t := Relax(net, s, u, d, v);
    LookingFacts(net, from, s, u, d, v);
    RelaxQueues(net, from, s, u, d, v);
    assert s.order[..s.front][s.front - 1] == u;
    assert t.order[..s.front] == s.order[..s.front];
    assert v !in s.order[..s.front];
    assert forall k :: 0 <= k < s.front ==> t.order[k] in s.order[..s.front];
  }

  lemma {:induction false} OldLinkRises(net: Net, from: nat, s: Search, u: nat, d: int, v: nat, x: nat)
    requires Looking(net, from, s, u, d, v) && x < MAX_STATIONS && (x != v || !Improves(net, s, u, d, v))
    requires LinkRises(from, s, x)
    ensures LinkRises(from, Relax(net, s, u, d, v), x)
  {
    var t := Relax(net, s, u, d, v);
    RelaxQueues(net, from, s, u, d, v);
    assert ReachIsGood(s, x) && LinkIsGood(net, from, s, x);
    if !t.stale && s.distance[x] >= 0 && x != from {
      var p := s.previous[x];
      assert p in s.order;
      PlaceStays(s.order, t.order, x);
      PlaceStays(s.order, t.order, p);
    }
  }

  lemma {:induction false} RelaxKeepsRise(net: Net, from: nat, s: Search, u: nat, d: int, v: nat)
    requires Looking(net, from, s, u, d, v) && LinksRise(from, s)
    ensures LinksRise(from, Relax(net, s, u, d, v))
  {
    var t := Relax(net, s, u, d, v);
    forall x | 0 <= x < MAX_STATIONS
      ensures LinkRises(from, t, x)
    {
      assert LinkRises(from, s, x);
      if x == v && Improves(net, s, u, d, v) {
        if !t.stale {
          NewLinkRises(net, from, s, u, d, v);
        }
      } else {
        OldLinkRises(net, from, s, u, d, v, x);
      }
    }
  }

  lemma {:induction false} ScanKeepsRise(net: Net, from: nat, s: Search, u: nat, d: int, i: nat)
    requires Scanning(net, from, s, u, d) && u <= net.stations && i <= net.counts[u] && OfferedSoFar(net, s, u, i)
    requires LinksRise(from, s)
    ensures LinksRise(from, Scan(net, s, u, d, i))
    decreases net.counts[u] - i
  {
    if i < net.counts[u] {
      var v := Neighbours(net, u)[i];
      RelaxKeepsOffers(net, from, s, u, d, i);
      if !net.broken[IndexOf(u, v)] {
        RelaxKeepsRise(net, from, s, u, d, v);
      }
      ScanKeepsRise(net, from, Relax(net, s, u, d, v), u, d, i + 1);
    }
  }

  lemma {:induction false} VisitKeepsRise(net: Net, from: nat, s: Search)
    requires Inv(net, from, s) && s.front < |s.order| && LinksRise(from, s)
    ensures LinksRise(from, Visit(net, s))
  {
    var t := Taken(s);
    TakenKeepsCore(net, from, s);
    TakenKeepsOffers(net, from, s);
    forall v | 0 <= v < MAX_STATIONS
      ensures LinkRises(from, t, v)
    {
      assert LinkRises(from, s, v);
    }
    ScanKeepsRise(net, from, t, s.order[s.front], s.distance[s.order[s.front]], 0);
  }

  /** A station was taken no later than any station taken before it allowed, and the start always at 0. */
  ghost predicate KeyIsOffered(net: Net, from: nat, s: Search, k: nat)
    requires Shaped(net) && Sized(s) && k < s.front
  {
    && (s.order[k] == from ==> s.keys[k] == 0)
    && forall j :: 0 <= j < k && Live(net, s.order[j], s.order[k]) ==>
         s.keys[k] <= s.keys[j] + Len(net, s.order[j], s.order[k])
  }

  ghost predicate KeysAreOffered(net: Net, from: nat, s: Search)
    requires Shaped(net) && Sized(s)
  {
    forall k :: 0 <= k < s.front ==> KeyIsOffered(net, from, s, k)
  }

  lemma {:induction false} NewKeyIsOffered(net: Net, from: nat, s: Search)
    requires Inv(net, from, s) && s.front < |s.order|
    ensures KeyIsOffered(net, from, Taken(s), s.front)
  {
    var t, u := Taken(s), s.order[s.front];
    forall j | 0 <= j < s.front && Live(net, t.order[j], u)
      ensures t.keys[s.front] <= t.keys[j] + Len(net, t.order[j], u)
    {
      assert OfferedAll(net, s, j);
      assert Offered(net, s, j, u);
    }
  }

  lemma {:induction false} OfferStays(net: Net, from: nat, s: Search, t: Search, k: nat)
    requires Shaped(net) && Sized(s) && Sized(t) && k < s.front && KeyIsOffered(net, from, s, k)
    requires s.front <= t.front && s.order <= t.order && s.keys <= t.keys
    ensures KeyIsOffered(net, from, t, k)
  {
    forall j | 0 <= j < k && Live(net, t.order[j], t.order[k])
      ensures t.keys[k] <= t.keys[j] + Len(net, t.order[j], t.order[k])
    {
      assert t.order[j] == s.order[j] && t.keys[j] == s.keys[j];
    }
  }

  /** One turn adds to the queue and to the keys and takes nothing away. */
  lemma {:induction false} VisitExtends(net: Net, from: nat, s: Search)
    requires Inv(net, from, s) && s.front < |s.order|
    ensures var t := Visit(net, s);
            Sized(t) && t.front == s.front + 1 && s.order <= t.order && t.keys == Taken(s).keys && s.keys <= t.keys
  {
    ValidIsTabled(net);
    VisitQueues(net, from, s);
    RowExtends(net, s.order, s.order[s.front], 0);
  }

  lemma {:induction false} VisitKeepsKeys(net: Net, from: nat, s: Search)
    requires Inv(net, from, s) && s.front < |s.order| && KeysAreOffered(net, from, s)
    ensures KeysAreOffered(net, from, Visit(net, s))
  {
    var t := Visit(net, s);
    VisitExtends(net, from, s);
    forall k | 0 <= k < t.front
      ensures KeyIsOffered(net, from, t, k)
    {
      if k < s.front {
        OfferStays(net, from, s, t, k);
      } else {
        NewKeyIsOffered(net, from, s);
        OfferStays(net, from, Taken(s), t, k);
      }
    }
  }

  lemma {:induction false} ExploreKeepsBoth(net: Net, from: nat, s: Search)
    requires Inv(net, from, s) && LinksRise(from, s) && KeysAreOffered(net, from, s)
    ensures LinksRise(from, Explore(net, from, s)) && KeysAreOffered(net, from, Explore(net, from, s))
    decreases MAX_STATIONS - s.front
  {
    if s.front < |s.order| {
      VisitKeepsInv(net, from, s);
      QueueIsShort(net, from, s);
      VisitKeepsRise(net, from, s);
      VisitKeepsKeys(net, from, s);
      ExploreKeepsBoth(net, from, Visit(net, s));
    }
  }

  /** While nothing is stale, the walk along the links follows the queue. */
  lemma {:induction false} ChainRises(net: Net, from: nat, s: Search, v: nat)
    requires Core(net, from, s) && LinksRise(from, s) && !s.stale && v < MAX_STATIONS && s.distance[v] >= 0
    ensures Rising(s.order, Chain(net, from, s, v)) && Chain(net, from, s, v)[|Chain(net, from, s, v)| - 1] == v
    decreases s.distance[v]
  {
    assert LinkIsGood(net, from, s, v) && LinkRises(from, s, v);
    if v != from {
      var p := s.previous[v];
      assert 0 < Len(net, p, v);
      ChainRises(net, from, s, p);
    }
  }

  lemma {:induction false} FreshMeansRising(net: Net, from: nat, s: Search, v: nat, w: seq<nat>)
    requires Done(net, from, s) && !s.stale && LinksRise(from, s) && WalkBetween(net, w, from, v)
    ensures HasRisingShortest(net, s.order, from, v)
  {
    WalkIsReached(net, from, s, w, v);
    ChainIsAWalk(net, from, s, v);
    ChainRises(net, from, s, v);
    FreshIsSlack(net, from, s);
    ShortestIffNothingTense(net, from, s);
    assert WalkBetween(net, Chain(net, from, s, v), from, v);
  }

  /** All but the last connection of a shortest walk is a shortest walk. */
  lemma {:induction false} PrefixIsShortest(net: Net, from: nat, v: nat, w: seq<nat>)
    requires Shaped(net) && WalkBetween(net, w, from, v) && |w| > 1 && IsShortest(net, from, v, WalkLength(net, w))
    ensures var x := w[..|w| - 1];
            WalkBetween(net, x, from, w[|w| - 2]) && IsShortest(net, from, w[|w| - 2], WalkLength(net, x))
  {
    WalkPrefix(net, w, from, v);
    var x, u := w[..|w| - 1], w[|w| - 2];
    forall y | WalkBetween(net, y, from, u)
      ensures WalkLength(net, x) <= WalkLength(net, y)
    {
      var z := y + [v];
      assert z[..|z| - 1] == y;
      assert WalkBetween(net, z, from, v);
    }
  }

  lemma {:induction false} StayingIsShortest(net: Net, from: nat)
    requires Shaped(net) && from <= net.stations
    ensures IsShortest(net, from, from, 0)
  {
    assert WalkBetween(net, [from], from, from) && WalkLength(net, [from]) == 0;
  }

  lemma {:induction false} OnlyPlace(net: Net, from: nat, s: Search, k: nat)
    requires Core(net, from, s) && k < |s.order| && s.order[k] != from
    ensures Place(s.order, s.order[k]) == k
  {
    var p := Place(s.order, s.order[k]);
    assert p > 0 && k > 0;
    assert s.order[1..][p - 1] == s.order[1..][k - 1];
  }

  /** By places: a station whose shortest walk follows the queue has been offered its shortest distance in time. */
  lemma {:induction false} TakenAtShortest(net: Net, from: nat, s: Search, k: nat)
    requires Done(net, from, s) && KeysAreOffered(net, from, s) && k < s.front
    requires forall v, w :: WalkBetween(net, w, from, v) ==> HasRisingShortest(net, s.order, from, v)
    ensures IsShortest(net, from, s.order[k], s.keys[k])
    decreases k
  {
    var v := s.order[k];
    assert KeyIsGood(net, from, s, k) && KeyIsOffered(net, from, s, k);
    if v == from {
      StayingIsShortest(net, from);
    } else {
      var y :| WalkBetween(net, y, from, v) && WalkLength(net, y) == s.keys[k];
      var w :| WalkBetween(net, w, from, v) && Rising(s.order, w) && IsShortest(net, from, v, WalkLength(net, w));
      PrefixIsShortest(net, from, v, w);
      WalkPrefix(net, w, from, v);
      OnlyPlace(net, from, s, k);
      var u := w[|w| - 2];
      var j := Place(s.order, u);
      assert j < Place(s.order, w[|w| - 2 + 1]);
      TakenAtShortest(net, from, s, j);
      SameShortest(net, from, u, s.keys[j], WalkLength(net, w[..|w| - 1]));
    }
  }

  lemma {:induction false} SameShortest(net: Net, from: nat, v: nat, c: int, d: int)
    requires Shaped(net) && IsShortest(net, from, v, c) && IsShortest(net, from, v, d)
    ensures c == d
  {
    var w :| WalkBetween(net, w, from, v) && WalkLength(net, w) == c;
    var x :| WalkBetween(net, x, from, v) && WalkLength(net, x) == d;
  }

  lemma {:induction false} FinishedKeepsBoth(net: Net, from: nat, to: nat)
    requires Searchable(net) && from <= net.stations && to <= net.stations && from != to
    ensures LinksRise(from, Finished(net, from, to)) && KeysAreOffered(net, from, Finished(net, from, to))
  {
    var s := Start(from, to);
    StartInv(net, from, to);
    forall v | 0 <= v < MAX_STATIONS
      ensures LinkRises(from, s, v)
    {
      assert v == from || s.distance[v] == -1;
    }
    ExploreKeepsBoth(net, from, s);
  }

  /**
   The exact condition, known before the search: no station is improved after it was taken if and only if every
   station that can be reached has a shortest walk along which the queue places rise.
   */
  lemma {:induction false} FreshIffShortestWaysRise(net: Net, from: nat, to: nat)
    requires Searchable(net) && from <= net.stations && to <= net.stations && from != to
    ensures !Finished(net, from, to).stale <==> ShortestWaysRise(net, from)
  {
    var s := Finished(net, from, to);
    SearchFollowsOrder(net, from, to);
    FinishedKeepsBoth(net, from, to);
    if s.stale {
      if ShortestWaysRise(net, from) {
        forall k | 0 <= k < s.front
          ensures IsShortest(net, from, s.order[k], s.keys[k])
        {
          TakenAtShortest(net, from, s, k);
        }
        FreshIffTakenAtShortest(net, from, s);
      }
    } else {
      forall v, w | WalkBetween(net, w, from, v)
        ensures HasRisingShortest(net, s.order, from, v)
      {
        FreshMeansRising(net, from, s, v, w);
      }
    }
  }
}
