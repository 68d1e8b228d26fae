/**
 Why exactness is asked of the route together with its recorded length: connections 0-1 of length 10, 0-2 of 100, 0-3 of
 1, 1-2 of 10, 2-3 of 1 and 2-4 of 5. Station 2 is taken at 20 by way of 1 and improved to 2 by way of 3 afterwards. The
 search records 25 for station 4; but both ways to station 2 have two connections, and the route traced is the shortest,
 of length 7.
 */
module RailwayAccident {
  import opened Railway
  import opened RailwaySearch
  import opened RailwaySearchInvariant
  import opened RailwayRoutes
  import opened RailwayExact
  import opened RailwayExample

  ghost predicate IsAccident(net: Net) {
    && Searchable(net) && net.stations == 4
    && Neighbours(net, 0) == [1, 2, 3] && Neighbours(net, 1) == [0, 2]
    && Neighbours(net, 2) == [0, 1, 3, 4] && Neighbours(net, 3) == [0, 2] && Neighbours(net, 4) == [2]
    && AtLength(net, 0, 1, 10) && AtLength(net, 0, 2, 100) && AtLength(net, 0, 3, 1)
    && AtLength(net, 1, 2, 10) && AtLength(net, 2, 3, 1) && AtLength(net, 2, 4, 5)
    && (forall i :: 0 <= i < MAX_CONNECTIONS ==> !net.broken[i])
  }

  predicate AtLength(net: Net, a: nat, b: nat, length: nat)
    requires Shaped(net) && a <= net.stations && b <= net.stations
  {
    Len(net, a, b) == Len(net, b, a) == length
  }

  lemma {:induction false} BuildFork() returns (net: Net)
    ensures Searchable(net) && net.stations == 4 && net.broken == Empty(4).broken
    ensures Neighbours(net, 0) == [1, 2] && Neighbours(net, 1) == [0] && Neighbours(net, 2) == [0]
    ensures Neighbours(net, 3) == [] && Neighbours(net, 4) == []
    ensures AtLength(net, 0, 1, 10) && AtLength(net, 0, 2, 100)
  {
    net := NothingYet(4);
    net := AddedLink(net, 0, 1, 10);
    net := AddedLink(net, 0, 2, 100);
  }

  lemma {:induction false} BuildRing() returns (net: Net)
    ensures Searchable(net) && net.stations == 4 && net.broken == Empty(4).broken
    ensures Neighbours(net, 0) == [1, 2, 3] && Neighbours(net, 1) == [0, 2] && Neighbours(net, 2) == [0, 1]
    ensures Neighbours(net, 3) == [0] && Neighbours(net, 4) == []
    ensures AtLength(net, 0, 1, 10) && AtLength(net, 0, 2, 100) && AtLength(net, 0, 3, 1) && AtLength(net, 1, 2, 10)
  {
    net := BuildFork();
    net := AddedLink(net, 0, 3, 1);
    net := AddedLink(net, 1, 2, 10);
  }

  lemma {:induction false} BuildAccident() returns (net: Net)
    ensures IsAccident(net)
  {
    net := BuildRing();
    net := AddedLink(net, 2, 3, 1);
    net := AddedLink(net, 2, 4, 5);
  }

  lemma {:induction false} FirstVisit(net: Net, s: Search)
    requires IsAccident(net)
    requires Shows(s, 0, [0], [0, -1, -1, -1, -1], [0, 0, 0, 0, 0], [false, false, false, false, false])
    ensures Shows(Visit(net, s), 1, [0, 1, 2, 3],
                  [0, 10, 100, 1, -1], [0, 1, 1, 1, 0], [false, true, true, true, false])
    ensures Visit(net, s).previous == s.previous[1 := 0][2 := 0][3 := 0]
  {
    var a := Taken(s);
    var b := Relax(net, a, 0, 0, 1);
    var c := Relax(net, b, 0, 0, 2);
    var d := Relax(net, c, 0, 0, 3);
    assert Scan(net, d, 0, 0, 3) == d;
    assert Scan(net, c, 0, 0, 2) == d;
    assert Scan(net, b, 0, 0, 1) == d;
  }

  lemma {:induction false} SecondVisit(net: Net, s: Search)
    requires IsAccident(net)
    requires Shows(s, 1, [0, 1, 2, 3], [0, 10, 100, 1, -1], [0, 1, 1, 1, 0], [false, true, true, true, false])
    ensures Shows(Visit(net, s), 2, [0, 1, 2, 3, 0],
                  [0, 10, 20, 1, -1], [0, 1, 2, 1, 0], [true, true, true, true, false])
    ensures Visit(net, s).previous == s.previous[2 := 1]
  {
    var a := Taken(s);
    var b := Relax(net, a, 1, 10, 0);
    var c := Relax(net, b, 1, 10, 2);
    assert Scan(net, c, 1, 10, 2) == c;
    assert Scan(net, b, 1, 10, 1) == c;
  }

  lemma {:induction false} ThirdVisit(net: Net, s: Search)
    requires IsAccident(net)
    requires Shows(s, 2, [0, 1, 2, 3, 0], [0, 10, 20, 1, -1], [0, 1, 2, 1, 0], [true, true, true, true, false])
    ensures Shows(Visit(net, s), 3, [0, 1, 2, 3, 0, 4],
                  [0, 10, 20, 1, 25], [0, 1, 2, 1, 3], [true, true, true, true, true])
    ensures Visit(net, s).previous == s.previous[4 := 2]
  {
    var a := Taken(s);
    var b := Relax(net, a, 2, 20, 4);
    assert Relax(net, a, 2, 20, 0) == Relax(net, a, 2, 20, 1) == Relax(net, a, 2, 20, 3) == a;
    assert Scan(net, b, 2, 20, 4) == b;
    assert Scan(net, a, 2, 20, 3) == b;
    assert Scan(net, a, 2, 20, 2) == b;
    assert Scan(net, a, 2, 20, 1) == b;
  }

  lemma {:induction false} FourthVisit(net: Net, s: Search)
    requires IsAccident(net)
    requires Shows(s, 3, [0, 1, 2, 3, 0, 4], [0, 10, 20, 1, 25], [0, 1, 2, 1, 3], [true, true, true, true, true])
    ensures Shows(Visit(net, s), 4, [0, 1, 2, 3, 0, 4],
                  [0, 10, 2, 1, 25], [0, 1, 2, 1, 3], [true, true, true, true, true])
    ensures Visit(net, s).previous == s.previous[2 := 3]
  {
    var a := Taken(s);
    var b := Relax(net, a, 3, 1, 2);
    assert Relax(net, a, 3, 1, 0) == a;
    assert Scan(net, b, 3, 1, 2) == b;
    assert Scan(net, a, 3, 1, 1) == b;
  }

  lemma {:induction false} LastVisits(net: Net, s: Search)
    requires IsAccident(net)
    requires Shows(s, 4, [0, 1, 2, 3, 0, 4], [0, 10, 2, 1, 25], [0, 1, 2, 1, 3], [true, true, true, true, true])
    ensures Visit(net, s) == Taken(s) && Visit(net, Taken(s)) == Taken(Taken(s))
  {
    var a := Taken(s);
    assert Relax(net, a, 0, 0, 1) == Relax(net, a, 0, 0, 2) == Relax(net, a, 0, 0, 3) == a;
    assert Scan(net, a, 0, 0, 3) == a;
    assert Scan(net, a, 0, 0, 2) == a;
    assert Scan(net, a, 0, 0, 1) == a;
    var b := Taken(a);
    assert Relax(net, b, 4, 25, 2) == b;
    assert Scan(net, b, 4, 25, 1) == b;
  }

  lemma {:induction false} TwoTurns(net: Net) returns (t: Search)
    requires IsAccident(net)
    ensures OnTheWay(net, 4, t) && t.previous[3] == 0
    ensures Shows(t, 2, [0, 1, 2, 3, 0], [0, 10, 20, 1, -1], [0, 1, 2, 1, 0], [true, true, true, true, false])
  {
    StartInv(net, 0, 4);
    t := Start(0, 4);
    FirstVisit(net, t);
    OneTurn(net, 4, t);
    t := Visit(net, t);
    SecondVisit(net, t);
    OneTurn(net, 4, t);
    t := Visit(net, t);
  }

  lemma {:induction false} ThreeTurns(net: Net) returns (t: Search)
    requires IsAccident(net)
    ensures OnTheWay(net, 4, t) && t.previous[3] == 0 && t.previous[4] == 2
    ensures Shows(t, 3, [0, 1, 2, 3, 0, 4], [0, 10, 20, 1, 25], [0, 1, 2, 1, 3], [true, true, true, true, true])
  {
    t := TwoTurns(net);
    ThirdVisit(net, t);
    OneTurn(net, 4, t);
    t := Visit(net, t);
  }

  lemma {:induction false} FourTurns(net: Net) returns (t: Search)
    requires IsAccident(net)
    ensures OnTheWay(net, 4, t) && t.previous[2] == 3 && t.previous[3] == 0 && t.previous[4] == 2
    ensures Shows(t, 4, [0, 1, 2, 3, 0, 4], [0, 10, 2, 1, 25], [0, 1, 2, 1, 3], [true, true, true, true, true])
  {
    t := ThreeTurns(net);
    FourthVisit(net, t);
    OneTurn(net, 4, t);
    t := Visit(net, t);
  }

  lemma {:induction false} AccidentRun(net: Net) returns (t: Search)
    requires IsAccident(net)
    ensures t == Finished(net, 0, 4) && t.distance[4] == 25 && t.hops[4] == 3
    ensures Trace(t.previous, 4, 3) == [0, 3, 2, 4]
  {
    t := FourTurns(net);
    LastVisits(net, t);
    OneTurn(net, 4, t);
    OneTurn(net, 4, Taken(t));
    t := Taken(Taken(t));
    assert Trace(t.previous, 3, 1) == [0, 3];
    assert Trace(t.previous, 2, 2) == [0, 3, 2];
  }

  lemma {:induction false} RouteLength(net: Net)
    requires IsAccident(net)
    ensures WalkBetween(net, [0, 3, 2, 4], 0, 4) && WalkLength(net, [0, 3, 2, 4]) == 7
  {
    assert WalkBetween(net, [0], 0, 0);
    WalkGrows(net, 0, [0], 0, 3);
    WalkGrows(net, 0, [0] + [3], 3, 2);
    WalkGrows(net, 0, [0] + [3] + [2], 2, 4);
    assert [0] + [3] + [2] + [4] == [0, 3, 2, 4];
  }

  /** The last two connections come from station 2, and into it from 3 at the least. */
  lemma {:induction false} NoShorterRoute(net: Net, w: seq<nat>)
    requires IsAccident(net) && WalkBetween(net, w, 0, 4)
    ensures 7 <= WalkLength(net, w)
  {
    WalkPrefix(net, w, 0, 4);
    var x := w[..|w| - 1];
    WalkPrefix(net, x, 0, 2);
    if |x| > 2 {
      WalkPrefix(net, x[..|x| - 1], 0, x[|x| - 2]);
    }
  }

  /** The route to station 4 is shortest and has the returned number of connections; its recorded length is wrong. */
  lemma {:induction false} RightByAccident() returns (net: Net)
    ensures IsAccident(net) && !ShortestCanBeFollowed(net, 0, 4)
    ensures var s := Finished(net, 0, 4);
            && s.distance[4] == 25 && s.hops[4] == 3 && Trace(s.previous, 4, 3) == [0, 3, 2, 4]
            && WalkBetween(net, [0, 3, 2, 4], 0, 4) && WalkLength(net, [0, 3, 2, 4]) == 7
            && IsShortest(net, 0, 4, 7)
  {
    net := BuildAccident();
    var t := AccidentRun(net);
    RouteLength(net);
    forall w | WalkBetween(net, w, 0, 4)
      ensures 7 <= WalkLength(net, w)
    {
      NoShorterRoute(net, w);
    }
    RouteIsExactIff(net, 0, 4);
  }
}
