/**
 Why the condition is needed: connections 0-1 of length 100, 0-2 of length 1, 1-2 of length 1 and 1-3 of length 5,
 added in this order. The way from 0 to 3 by way of 2 and 1 has length 7; the search records 105 and traces a route of
 two connections that begins at station 2.
 */
module RailwayExample {
  import opened Railway
  import opened RailwaySearch
  import opened RailwaySearchInvariant
  import opened RailwayRoutes
  import opened RailwayQueueOrder
  import opened RailwayExact

  ghost predicate IsExample(net: Net) {
    && Searchable(net) && net.stations == 4
    && Neighbours(net, 0) == [1, 2] && Neighbours(net, 1) == [0, 2, 3]
    && Neighbours(net, 2) == [0, 1] && Neighbours(net, 3) == [1]
    && net.lengths[IndexOf(0, 1)] == net.lengths[IndexOf(1, 0)] == 100
    && net.lengths[IndexOf(0, 2)] == net.lengths[IndexOf(2, 0)] == 1
    && net.lengths[IndexOf(1, 2)] == net.lengths[IndexOf(2, 1)] == 1
    && net.lengths[IndexOf(1, 3)] == net.lengths[IndexOf(3, 1)] == 5
    && (forall i :: 0 <= i < MAX_CONNECTIONS ==> !net.broken[i])
  }

  lemma {:induction false} AddedLink(net: Net, a: nat, b: nat, length: nat) returns (n: Net)
    requires Searchable(net) && a <= net.stations && b <= net.stations && a != b && !Refuses(net, a, b)
    requires 0 < length <= MAX_LENGTH
    ensures Sound(net) && n == Add(net, a, b, length).0
    ensures Searchable(n) && n.stations == net.stations && n.broken == net.broken
    ensures forall c :: 0 <= c < MAX_STATIONS ==>
              Neighbours(n, c) == Neighbours(net, c) + (if c == a then [b] else if c == b then [a] else [])
    ensures forall c, d :: 0 <= c <= net.stations && 0 <= d <= net.stations ==>
              n.lengths[IndexOf(c, d)] == if SamePair(c, d, a, b) then length else net.lengths[IndexOf(c, d)]
  {
    ValidIffLoopFree(net);
    n := Add(net, a, b, length).0;
    AddKeepsValidIff(net, a, b, length);
    forall c | 0 <= c < MAX_STATIONS
      ensures Neighbours(n, c) == Neighbours(net, c) + (if c == a then [b] else if c == b then [a] else [])
    {
      AddedRows(net, a, b, length, c);
    }
    forall c, d | 0 <= c <= n.stations && 0 <= d <= n.stations
      ensures n.lengths[IndexOf(c, d)] == if SamePair(c, d, a, b) then length else net.lengths[IndexOf(c, d)]
      ensures d in Neighbours(n, c) ==> 0 < n.lengths[IndexOf(c, d)] <= MAX_LENGTH
    {
      LinkAfterAdd(net, a, b, length, c, d);
    }
  }

  lemma {:induction false} NothingYet(n: nat) returns (net: Net)
    requires n <= SAFE_STATIONS
    ensures Searchable(net) && net == Empty(n) && Sound(net)
    ensures forall c :: 0 <= c < MAX_STATIONS ==> Neighbours(net, c) == []
  {
    EmptyIsValid(n);
    net := Empty(n);
    ValidIffLoopFree(net);
  }

  lemma {:induction false} BuildHalf() returns (net: Net)
    ensures Searchable(net) && net.stations == 4 && net.broken == Empty(4).broken
    ensures Neighbours(net, 0) == [1, 2] && Neighbours(net, 1) == [0]
    ensures Neighbours(net, 2) == [0] && Neighbours(net, 3) == []
    ensures net.lengths[IndexOf(0, 1)] == net.lengths[IndexOf(1, 0)] == 100
    ensures net.lengths[IndexOf(0, 2)] == net.lengths[IndexOf(2, 0)] == 1
  {
    net := NothingYet(4);
    net := AddedLink(net, 0, 1, 100);
    net := AddedLink(net, 0, 2, 1);
  }

  /** The example network, built the way the loader builds it. */
  lemma {:induction false} BuildExample() returns (net: Net)
    ensures IsExample(net)
  {
    net := BuildHalf();
    net := AddedLink(net, 1, 2, 1);
    net := AddedLink(net, 1, 3, 5);
  }

  /** The tables of the first stations. */
  ghost predicate Shows(s: Search, front: nat, order: seq<nat>, distance: seq<int>, hops: seq<nat>,
                        visited: seq<bool>)
  {
    && Sized(s) && s.front == front && s.order == order
    && |distance| == |hops| == |visited| <= MAX_STATIONS
    && forall v :: 0 <= v < |distance| ==>
         s.distance[v] == distance[v] && s.hops[v] == hops[v] && s.visited[v] == visited[v]
  }

  lemma {:induction false} FirstVisit(net: Net, s: Search)
    requires IsExample(net) && Shows(s, 0, [0], [0, -1, -1, -1], [0, 0, 0, 0], [false, false, false, false])
    ensures Shows(Visit(net, s), 1, [0, 1, 2], [0, 100, 1, -1], [0, 1, 1, 0], [false, true, true, false])
    ensures Visit(net, s).previous == s.previous[1 := 0][2 := 0]
  {
    var a := Taken(s);
    var b := Relax(net, a, 0, 0, 1);
    var c := Relax(net, b, 0, 0, 2);
    assert Scan(net, c, 0, 0, 2) == c;
    assert Scan(net, b, 0, 0, 1) == c;
  }

  lemma {:induction false} SecondVisit(net: Net, s: Search)
    requires IsExample(net) && Shows(s, 1, [0, 1, 2], [0, 100, 1, -1], [0, 1, 1, 0], [false, true, true, false])
    ensures Shows(Visit(net, s), 2, [0, 1, 2, 0, 3], [0, 100, 1, 105], [0, 1, 1, 2], [true, true, true, true])
    ensures Visit(net, s).previous == s.previous[3 := 1]
  {
    var a := Taken(s);
    var b := Relax(net, a, 1, 100, 0);
    var c := Relax(net, b, 1, 100, 2);
    var d := Relax(net, c, 1, 100, 3);
    assert Scan(net, d, 1, 100, 3) == d;
    assert Scan(net, c, 1, 100, 2) == d;
    assert Scan(net, b, 1, 100, 1) == d;
  }

  lemma {:induction false} ThirdVisit(net: Net, s: Search)
    requires IsExample(net) && Shows(s, 2, [0, 1, 2, 0, 3], [0, 100, 1, 105], [0, 1, 1, 2], [true, true, true, true])
    ensures Shows(Visit(net, s), 3, [0, 1, 2, 0, 3], [0, 2, 1, 105], [0, 2, 1, 2], [true, true, true, true])
    ensures Visit(net, s).previous == s.previous[1 := 2] && Visit(net, s).stale
  {
    var a := Taken(s);
    var b := Relax(net, a, 2, 1, 0);
    var c := Relax(net, b, 2, 1, 1);
    assert a.order[..3][1] == 1;
    assert Scan(net, c, 2, 1, 2) == c;
    assert Scan(net, b, 2, 1, 1) == c;
  }

  lemma {:induction false} LastVisits(net: Net, s: Search)
    requires IsExample(net) && Shows(s, 3, [0, 1, 2, 0, 3], [0, 2, 1, 105], [0, 2, 1, 2], [true, true, true, true])
    ensures Shows(Visit(net, s), 4, [0, 1, 2, 0, 3], [0, 2, 1, 105], [0, 2, 1, 2], [true, true, true, true])
    ensures var t := Visit(net, Visit(net, s));
            && Shows(t, 5, [0, 1, 2, 0, 3], [0, 2, 1, 105], [0, 2, 1, 2], [true, true, true, true])
            && t.previous == s.previous && t.stale == s.stale
  {
    var a := Taken(s);
    var b := Relax(net, a, 0, 0, 1);
    var c := Relax(net, b, 0, 0, 2);
    assert Scan(net, c, 0, 0, 2) == c;
    assert Scan(net, b, 0, 0, 1) == c;
    var e := Taken(c);
    var f := Relax(net, e, 3, 105, 1);
    assert Scan(net, f, 3, 105, 1) == f;
  }

  /** The state `s` is one that the search from station 0 for another one passes through. */
  ghost predicate OnTheWay(net: Net, to: nat, s: Search) {
    Searchable(net) && 0 < to <= net.stations && Inv(net, 0, s) && Explore(net, 0, s) == Finished(net, 0, to)
  }

  lemma {:induction false} OneTurn(net: Net, to: nat, s: Search)
    requires OnTheWay(net, to, s) && s.front < |s.order|
    ensures OnTheWay(net, to, Visit(net, s))
  {
    VisitKeepsInv(net, 0, s);
  }

  lemma {:induction false} FirstTurn(net: Net) returns (t: Search)
    requires IsExample(net)
    ensures OnTheWay(net, 3, t) && t.previous[1] == 0
    ensures Shows(t, 1, [0, 1, 2], [0, 100, 1, -1], [0, 1, 1, 0], [false, true, true, false])
  {
    StartInv(net, 0, 3);
    t := Start(0, 3);
    FirstVisit(net, t);
    OneTurn(net, 3, t);
    t := Visit(net, t);
  }

  lemma {:induction false} TwoTurns(net: Net) returns (t: Search)
    requires IsExample(net)
    ensures OnTheWay(net, 3, t)
    ensures Shows(t, 2, [0, 1, 2, 0, 3], [0, 100, 1, 105], [0, 1, 1, 2], [true, true, true, true])
    ensures t.previous[1] == 0 && t.previous[3] == 1
  {
    t := FirstTurn(net);
    SecondVisit(net, t);
    OneTurn(net, 3, t);
    t := Visit(net, t);
  }

  /** In the third turn station 1 is improved after it was taken. */
  lemma {:induction false} ThreeTurns(net: Net) returns (t: Search)
    requires IsExample(net)
    ensures OnTheWay(net, 3, t) && t.stale
    ensures Shows(t, 3, [0, 1, 2, 0, 3], [0, 2, 1, 105], [0, 2, 1, 2], [true, true, true, true])
    ensures t.previous[1] == 2 && t.previous[3] == 1
  {
    var s := TwoTurns(net);
    ThirdVisit(net, s);
    OneTurn(net, 3, s);
    t := Visit(net, s);
  }

  lemma {:induction false} ExampleRun(net: Net) returns (t: Search)
    requires IsExample(net)
    ensures t == Finished(net, 0, 3) && t.stale
    ensures Shows(t, 5, [0, 1, 2, 0, 3], [0, 2, 1, 105], [0, 2, 1, 2], [true, true, true, true])
    ensures t.previous[1] == 2 && t.previous[3] == 1
  {
    var s := ThreeTurns(net);
    LastVisits(net, s);
    OneTurn(net, 3, s);
    OneTurn(net, 3, Visit(net, s));
    t := Visit(net, Visit(net, s));
  }

  /** The search goes stale and overestimates, and the route it traces does not begin at the start. */
  lemma {:induction false} StaleSearchMisleads() returns (net: Net)
    ensures IsExample(net)
    ensures var s := Finished(net, 0, 3);
            && s.stale && s.distance[3] == 105 && !IsShortest(net, 0, 3, 105)
            && Trace(s.previous, 3, s.hops[3]) == [2, 1, 3]
  {
    net := BuildExample();
    var t := ExampleRun(net);
    assert Trace(t.previous, 1, 1) == [2, 1] && Trace(t.previous, 3, 2) == [2, 1, 3];
    Shorter(net);
  }

  lemma {:induction false} NoShorterToOne(net: Net, w: seq<nat>)
    requires IsExample(net) && WalkBetween(net, w, 0, 1)
    ensures WalkLength(net, w) >= 2
  {
    WalkPrefix(net, w, 0, 1);
    if |w| > 2 {
      WalkPrefix(net, w[..|w| - 1], 0, w[|w| - 2]);
    }
  }

  lemma {:induction false} WayToOne(net: Net)
    requires IsExample(net)
    ensures WalkBetween(net, [0, 2, 1], 0, 1) && IsShortest(net, 0, 1, WalkLength(net, [0, 2, 1]))
  {
    assert WalkBetween(net, [0], 0, 0);
    WalkGrows(net, 0, [0], 0, 2);
    WalkGrows(net, 0, [0] + [2], 2, 1);
    assert [0] + [2] + [1] == [0, 2, 1];
    forall x | WalkBetween(net, x, 0, 1)
      ensures 2 <= WalkLength(net, x)
    {
      NoShorterToOne(net, x);
    }
  }

  /** The same search is exact for station 1, although that is the station that went stale. */
  lemma {:induction false} StaleSearchCanBeExact(net: Net)
    requires IsExample(net)
    ensures Finished(net, 0, 1).stale && RouteIsExact(net, 0, Finished(net, 0, 1), 1)
    ensures ShortestCanBeFollowed(net, 0, 1) && !ShortestWaysRise(net, 0)
  {
    var t := ExampleRun(net);
    assert Start(0, 1) == Start(0, 3);
    assert t.order == QueueOrder(net, 0) by {
      SearchFollowsOrder(net, 0, 3);
    }
    assert [0, 2, 1][..2] == [0, 2];
    assert AlmostRising(t.order, [0, 2, 1]);
    WayToOne(net);
    RouteIsExactIff(net, 0, 1);
    FreshIffShortestWaysRise(net, 0, 1);
  }

  lemma {:induction false} Shorter(net: Net)
    requires IsExample(net)
    ensures HasWalk(net, 0, 3, 7) && !IsShortest(net, 0, 3, 105)
  {
    assert WalkBetween(net, [0], 0, 0) && WalkLength(net, [0]) == 0;
    WalkExtends(net, 0, 0, 0, 2);
    WalkExtends(net, 0, 2, 1, 1);
    WalkExtends(net, 0, 1, 2, 3);
    var w :| WalkBetween(net, w, 0, 3) && WalkLength(net, w) == 7;
  }
}
