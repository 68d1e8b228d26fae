/**
 The route search: relaxation in first-in first-out order, without queueing an improved station again. The search is a
 function of the network; `keys` records the distance each station had when it was taken from the queue, and `stale`
 whether a station already taken has been improved afterwards.
 */
module RailwaySearch {
  import opened Railway

  const MAX_LENGTH := 0xFFFF

  datatype Search = Search(order: seq<nat>, front: nat, previous: seq<nat>, hops: seq<nat>, visited: seq<bool>,
                           distance: seq<int>, keys: seq<int>, stale: bool)

  /** A valid network with positive lengths that fit their 16-bit table. */
  ghost predicate Searchable(net: Net) {
    && Valid(net)
    && (forall a, b :: 0 <= a <= net.stations && 0 <= b <= net.stations && b in Neighbours(net, a) ==>
          0 < net.lengths[IndexOf(a, b)] <= MAX_LENGTH)
  }

  /** A connection that exists and is not broken. */
  predicate Live(net: Net, u: nat, v: nat)
    requires Shaped(net)
  {
    u <= net.stations && v <= net.stations && v in Neighbours(net, u) && !net.broken[IndexOf(u, v)]
  }

  function Len(net: Net, u: nat, v: nat): nat
    requires Shaped(net) && u <= net.stations && v <= net.stations
  {
    net.lengths[IndexOf(u, v)]
  }

  ghost predicate IsWalk(net: Net, w: seq<nat>)
    requires Shaped(net)
  {
    && |w| > 0 && w[0] <= net.stations
    && forall i :: 0 <= i < |w| - 1 ==> Live(net, w[i], w[i + 1])
  }

  ghost predicate WalkBetween(net: Net, w: seq<nat>, from: nat, to: nat)
    requires Shaped(net)
  {
    IsWalk(net, w) && w[0] == from && w[|w| - 1] == to
  }

  ghost function WalkLength(net: Net, w: seq<nat>): nat
    requires Shaped(net) && IsWalk(net, w)
  {
    if |w| == 1 then 0 else WalkLength(net, w[..|w| - 1]) + Len(net, w[|w| - 2], w[|w| - 1])
  }

  ghost predicate HasWalk(net: Net, from: nat, to: nat, d: int)
    requires Shaped(net)
  {
    exists w :: WalkBetween(net, w, from, to) && WalkLength(net, w) == d
  }

  /** The length of a shortest live walk. */
  ghost predicate IsShortest(net: Net, from: nat, to: nat, d: int)
    requires Shaped(net)
  {
    && HasWalk(net, from, to, d)
    && forall w :: WalkBetween(net, w, from, to) ==> d <= WalkLength(net, w)
  }

  lemma {:induction false} WalkExtends(net: Net, from: nat, u: nat, d: int, v: nat)
    requires Shaped(net) && HasWalk(net, from, u, d) && Live(net, u, v)
    ensures HasWalk(net, from, v, d + Len(net, u, v))
  {
    var w :| WalkBetween(net, w, from, u) && WalkLength(net, w) == d;
    var x := w + [v];
    assert x[..|x| - 1] == w;
    assert WalkBetween(net, x, from, v);
    assert WalkLength(net, x) == d + Len(net, u, v);
  }

  predicate Sized(s: Search) {
    && |s.previous| == |s.hops| == |s.visited| == |s.distance| == MAX_STATIONS
    && |s.keys| == s.front <= |s.order|
    && (forall k :: 0 <= k < |s.order| ==> s.order[k] < MAX_STATIONS)
  }

  function Start(from: nat, to: nat): Search
    requires from < MAX_STATIONS && to < MAX_STATIONS
  {
    Search([from], 0, seq(MAX_STATIONS, _ => INVALID_STATION), seq(MAX_STATIONS, _ => 0), seq(MAX_STATIONS, _ => false),
           seq(MAX_STATIONS, _ => -1)[from := 0][to := -1], [], false)
  }

  predicate Improves(net: Net, s: Search, u: nat, d: int, v: nat)
    requires Shaped(net) && Sized(s) && u <= net.stations && v <= net.stations
  {
    s.distance[v] == -1 || s.distance[v] > d + Len(net, u, v)
  }

  /** The tables after the comparison: the station u, taken at distance d, offers v the way through itself. */
  function Improved(net: Net, s: Search, u: nat, d: int, v: nat): (r: Search)
    requires Shaped(net) && Sized(s) && u <= net.stations && v <= net.stations
    ensures Sized(r) && r.front == s.front && r.keys == s.keys && r.order == s.order && r.visited == s.visited
  {
    if !Improves(net, s, u, d, v) then s
    else s.(distance := s.distance[v := d + Len(net, u, v)], previous := s.previous[v := u],
            hops := s.hops[v := s.hops[u] + 1], stale := s.stale || v in s.order[..s.front])
  }

  /** One turn of the inner loop: the station u, taken at distance d, looks at its neighbour v. */
  function Relax(net: Net, s: Search, u: nat, d: int, v: nat): (t: Search)
    requires Shaped(net) && Sized(s) && u <= net.stations && v <= net.stations
    ensures Sized(t) && t.front == s.front && t.keys == s.keys
  {
    if net.broken[IndexOf(u, v)] then s
    else
      var r := Improved(net, s, u, d, v);
      if s.visited[v] then r else r.(visited := r.visited[v := true], order := r.order + [v])
  }

  /** The inner loop from neighbour i on. */
  function Scan(net: Net, s: Search, u: nat, d: int, i: nat): (t: Search)
    requires Valid(net) && Sized(s) && u <= net.stations && i <= net.counts[u]
    ensures Sized(t) && t.front == s.front && t.keys == s.keys
    decreases net.counts[u] - i
  {
    if i == net.counts[u] then s
    else
      assert RowIsGood(net, u) && Neighbours(net, u)[i] in Neighbours(net, u);
      Scan(net, Relax(net, s, u, d, Neighbours(net, u)[i]), u, d, i + 1)
  }

  /** Taking the next station from the queue. */
  function Taken(s: Search): (t: Search)
    requires Sized(s) && s.front < |s.order|
    ensures Sized(t)
  {
    s.(front := s.front + 1, keys := s.keys + [s.distance[s.order[s.front]]])
  }

  /** One turn of the outer loop. */
  function Visit(net: Net, s: Search): (t: Search)
    requires Valid(net) && Sized(s) && s.front < |s.order| && s.order[s.front] <= net.stations
    ensures Sized(t) && t.front == s.front + 1
  {
    var u := s.order[s.front];
    Scan(net, Taken(s), u, s.distance[u], 0)
  }
}
