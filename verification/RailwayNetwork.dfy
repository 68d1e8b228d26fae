/** The shared railway structure, updated in place, and the loader that builds it from a description. */
module RailwayNetwork {
  import opened Sequences
  import opened Railway

  class Network {
    var stationCount: nat
    const neighbourList: array2<nat>
    const neighbourCount: array<nat>
    const connectionLengths: array<nat>
    const connectionDestroyed: array<bool>

    ghost function Row(a: nat): (row: seq<nat>)
      requires a < neighbourList.Length0
      reads neighbourList
      ensures |row| == neighbourList.Length1
      ensures forall i :: 0 <= i < |row| ==> row[i] == neighbourList[a, i]
    {
      seq(neighbourList.Length1, i requires 0 <= i < neighbourList.Length1 reads neighbourList => neighbourList[a, i])
    }

    ghost function Rows(): (rows: seq<seq<nat>>)
      reads neighbourList
      ensures |rows| == neighbourList.Length0
      ensures forall a :: 0 <= a < |rows| ==> rows[a] == Row(a)
    {
      seq(neighbourList.Length0, a requires 0 <= a < neighbourList.Length0 reads neighbourList => Row(a))
    }

    /** The network that the fields stand for, as far as it has its place in the tables. */
    ghost function Contents(): Net
      reads this, neighbourList, neighbourCount, connectionLengths, connectionDestroyed
    {
      Net(Charted(stationCount), Rows(), neighbourCount[..], connectionLengths[..], connectionDestroyed[..])
    }

    /** The two number arrays that an addition writes are different objects. */
    ghost predicate Separate() {
      neighbourCount != connectionLengths
    }

    constructor ()
      ensures Separate() && Contents() == Empty(0)
      ensures fresh(neighbourList) && fresh(neighbourCount) && fresh(connectionLengths) && fresh(connectionDestroyed)
    {
      neighbourList := new nat[MAX_STATIONS, ROW]((_, _) => INVALID_STATION);
      neighbourCount := new nat[MAX_STATIONS](_ => 0);
      connectionLengths := new nat[MAX_CONNECTIONS](_ => 0);
      connectionDestroyed := new bool[MAX_CONNECTIONS](_ => false);
      stationCount := 0;
      new;
      forall a | 0 <= a < MAX_STATIONS
        ensures Rows()[a] == Empty(0).rows[a]
      {
        assert Row(a) == seq(ROW, _ => INVALID_STATION);
      }
      assert Rows() == Empty(0).rows;
    }

    /**
     The initialisation of an object that may have been there before: what it does not write keeps its old contents.
     */
    method Initialise()
      requires Shaped(Contents())
      modifies this, neighbourList
      ensures Contents() == Initialised(old(Contents()))
    {
      ghost var net := Contents();
      assert |Rows()| == MAX_STATIONS && |Rows()[0]| == ROW;
      stationCount := 0;
      for i := 0 to MAX_STATIONS
        invariant forall a, j :: 0 <= a < i && 0 <= j < ROW ==> neighbourList[a, j] == INVALID_STATION
        invariant stationCount == 0
      {
        for j := 0 to ROW
          invariant forall a, k :: 0 <= a < i && 0 <= k < ROW ==> neighbourList[a, k] == INVALID_STATION
          invariant forall k :: 0 <= k < j ==> neighbourList[i, k] == INVALID_STATION
          invariant stationCount == 0
        {
          neighbourList[i, j] := INVALID_STATION;
        }
      }
      forall a | 0 <= a < MAX_STATIONS
        ensures Rows()[a] == Empty(0).rows[a]
      {
        assert Row(a) == seq(ROW, _ => INVALID_STATION);
      }
      assert Rows() == Empty(0).rows;
    }

    /** Linear search of one row; `idx` is where the neighbour was found, or -1. */
    method ConnectionExists(a: nat, b: nat) returns (found: bool, idx: int)
      requires Shaped(Contents()) && a < MAX_STATIONS
      ensures found <==> b in Neighbours(Contents(), a)
      ensures found ==> 0 <= idx < neighbourCount[a] && neighbourList[a, idx] == b
                        && b !in Neighbours(Contents(), a)[..idx]
      ensures !found ==> idx == -1
    {
      ghost var row := Neighbours(Contents(), a);
      assert |row| == neighbourCount[a];
      var i := 0;
      while i < neighbourCount[a]
        invariant 0 <= i <= neighbourCount[a]
        invariant b !in row[..i]
      {
        assert row[i] == neighbourList[a, i];
        if neighbourList[a, i] == b {
          return true, i;
        }
        assert row[..i + 1] == row[..i] + [row[i]];
        i := i + 1;
      }
      assert row[..i] == row;
      return false, -1;
    }

    /** One store into the neighbour table. */
    method StoreNeighbour(a: nat, i: nat, b: nat)
      requires a < neighbourList.Length0 && i < neighbourList.Length1
      modifies neighbourList
      ensures Rows() == old(Rows())[a := old(Row(a))[i := b]]
    {
      ghost var goal: seq<seq<nat>> := Rows()[a := Row(a)[i := b]];
      neighbourList[a, i] := b;
      forall c | 0 <= c < neighbourList.Length0
        ensures Rows()[c] == goal[c]
      {
        assert Row(c) == goal[c];
      }
    }

    /** The pair passes the range check, but its connections have no place in the tables. */
    ghost predicate Beyond(a: nat, b: nat)
      reads this
    {
      a <= stationCount && b <= stationCount && (a > SAFE_STATIONS || b > SAFE_STATIONS)
    }

    /**
     Links a and b, or refuses; the stores come in the order of the original. `strayed` reports that a store beyond the
     tables was due, where the original is undefined.
     */
    method AddConnection(a: nat, b: nat, length: nat) returns (code: int, strayed: bool)
      requires Separate() && Sound(Contents())
      modifies neighbourList, neighbourCount, connectionLengths
      ensures strayed <==> Beyond(a, b)
      ensures !strayed ==> (Contents(), code) == Add(old(Contents()), a, b, length)
      ensures strayed ==> Contents() == old(Contents())
    {
      if a > stationCount || b > stationCount {
        return 1, false;
      }
      if IndexOf(a, b) >= connectionLengths.Length || IndexOf(b, a) >= connectionLengths.Length {
        return 0, true;
      }
      var there, _ := ConnectionExists(a, b);
      var back, _ := ConnectionExists(b, a);
      if there || back {
        return 1, false;
      }
      ghost var net := Contents();
      ghost var goal := Add(net, a, b, length).0;
      assert |Rows()[a]| == ROW;
      assert goal == Added(net, a, b, length) && net.counts[a] + 1 < ROW && net.counts[b] + 1 < ROW;
      StoreNeighbour(a, neighbourCount[a], b);
      StoreNeighbour(b, neighbourCount[b], a);
      assert Rows() == goal.rows;
      neighbourCount[a] := neighbourCount[a] + 1;
      neighbourCount[b] := neighbourCount[b] + 1;
      assert neighbourCount[..] == goal.counts;
      connectionLengths[IndexOf(a, b)] := length;
      connectionLengths[IndexOf(b, a)] := length;
      assert connectionLengths[..] == goal.lengths;
      return 0, false;
    }
  }

  /** A number read from the description file, if there was one to read. */
  datatype Field<T> = Missing | Value(n: T)

  /** One line of the file: two stations and a length. */
  datatype Record = Record(a: Field<nat>, b: Field<nat>, length: Field<nat>)

  datatype Verdict =
    | Loaded
    | NoStationCount | NoConnectionCount | TooManyStations
    | BadStationA(line: nat) | BadStationB(line: nat) | BadLength(line: nat) | CannotAdd(line: nat)
    | Strayed(line: nat)

  predicate Usable(r: Record, stations: nat) {
    && r.a.Value? && r.a.n <= stations
    && r.b.Value? && r.b.n <= stations
    && r.length.Value? && r.length.n > 0
  }

  predicate Joins(r: Record, c: nat, d: nat) {
    r.a.Value? && r.b.Value? && ((r.a.n == c && r.b.n == d) || (r.a.n == d && r.b.n == c))
  }

  /** Line k is usable and joins a pair that no earlier line has joined. */
  ghost predicate LineIsGood(records: seq<Record>, stations: nat, k: nat) {
    && k < |records| && Usable(records[k], stations)
    && forall j :: 0 <= j < k ==> !Joins(records[j], records[k].a.n, records[k].b.n)
  }

  ghost predicate LinesAreGood(records: seq<Record>, stations: nat, n: int) {
    forall k :: 0 <= k < n ==> LineIsGood(records, stations, k)
  }

  /** The line names no station whose connections have no place in the tables. */
  predicate InTables(r: Record) {
    r.a.Value? && r.b.Value? && r.a.n <= SAFE_STATIONS && r.b.n <= SAFE_STATIONS
  }

  /** None of the first n lines does. */
  ghost predicate AllInTables(records: seq<Record>, n: int) {
    forall k :: 0 <= k < n && k < |records| ==> InTables(records[k])
  }

  predicate NamesStation(f: Field<nat>) {
    f.Value? && f.n != INVALID_STATION
  }

  /** The complaint about a line that is not good: its first field that is wrong, or what the network has against it. */
  ghost predicate Complains(v: Verdict, records: seq<Record>, stations: nat) {
    && (v.BadStationA? || v.BadStationB? || v.BadLength? || v.CannotAdd? || v.Strayed?)
    && var k := v.line;
       if k >= |records| || !NamesStation(records[k].a) then v.BadStationA?
       else if !NamesStation(records[k].b) then v.BadStationB?
       else if records[k].length == Missing || records[k].length.n == 0 then v.BadLength?
       else if Usable(records[k], stations) && !InTables(records[k]) then v.Strayed?
       else v.CannotAdd? && !LineIsGood(records, stations, k)
  }

  lemma {:induction false} ChartedLines(records: seq<Record>, stations: nat, n: int)
    ensures LinesAreGood(records, Charted(stations), n)
       <==> LinesAreGood(records, stations, n) && AllInTables(records, n)
  {
    forall k | 0 <= k < n
      ensures LineIsGood(records, Charted(stations), k)
         <==> LineIsGood(records, stations, k) && k < |records| && InTables(records[k])
    {}
    if LinesAreGood(records, stations, n) && AllInTables(records, n) {
      forall k | 0 <= k < n
        ensures LineIsGood(records, Charted(stations), k)
      {
        assert LineIsGood(records, stations, k);
      }
    }
  }

  ghost predicate FileIsGood(stations: Field<nat>, connections: Field<int>, records: seq<Record>) {
    && stations.Value? && 0 < stations.n <= MAX_STATIONS
    && connections.Value? && connections.n != 0
    && LinesAreGood(records, stations.n, connections.n)
  }

  /** None of the first n lines joins a station to itself. */
  ghost predicate NoLoops(records: seq<Record>, n: nat) {
    forall k :: 0 <= k < n && k < |records| ==> !IsLoop(records[k])
  }

  predicate IsLoop(r: Record) {
    r.a.Value? && r.b.Value? && r.a.n == r.b.n
  }

  /** How often the loading loop turns. */
  function Lines(connections: int): nat {
    if connections > 0 then connections else 0
  }

  type Graph = map<(nat, nat), nat>

  /** The graph links the pair of one line, both ways and at the line's length. */
  ghost predicate Recorded(r: Record, g: Graph) {
    && r.a.Value? && r.b.Value? && r.length.Value?
    && var e, f := (r.a.n, r.b.n), (r.b.n, r.a.n);
       e in g && f in g && g[e] == g[f] == r.length.n
  }

  /** Some of the first n lines joins the pair e. */
  ghost predicate Backed(records: seq<Record>, n: nat, e: (nat, nat)) {
    exists k :: 0 <= k < n && k < |records| && Joins(records[k], e.0, e.1)
  }

  ghost predicate AllRecorded(records: seq<Record>, n: nat, g: Graph)
    requires n <= |records|
  {
    forall k {:trigger Recorded(records[k], g)} :: 0 <= k < n ==> Recorded(records[k], g)
  }

  ghost predicate AllBacked(records: seq<Record>, n: nat, g: Graph) {
    forall e {:trigger Backed(records, n, e)} :: e in g ==> Backed(records, n, e)
  }

  /** The graph is what the first n lines describe: all of them, and nothing else. */
  ghost predicate Describes(records: seq<Record>, n: nat, g: Graph) {
    n <= |records| && AllRecorded(records, n, g) && AllBacked(records, n, g)
  }

  lemma {:induction false} LinkedIffRepeated(records: seq<Record>, n: nat, g: Graph, a: nat, b: nat)
    requires Describes(records, n, g)
    ensures (a, b) in g <==> exists k :: 0 <= k < n && Joins(records[k], a, b)
  {
    if (a, b) in g {
      assert Backed(records, n, (a, b));
    }
    if k :| 0 <= k < n && Joins(records[k], a, b) {
      assert Recorded(records[k], g);
    }
  }

  lemma {:induction false} RecordedStays(r: Record, g: Graph, a: nat, b: nat, length: nat)
    requires Recorded(r, g) && (a, b) !in g && (b, a) !in g
    ensures Recorded(r, Joined(g, a, b, length))
  {}

  lemma {:induction false} BackedBy(records: seq<Record>, n: nat, k: nat, e: (nat, nat))
    requires k < n <= |records| && Joins(records[k], e.0, e.1)
    ensures Backed(records, n, e)
  {}

  lemma {:induction false} BackedStays(records: seq<Record>, n: nat, e: (nat, nat))
    requires Backed(records, n, e)
    ensures Backed(records, n + 1, e)
  {}

  lemma {:induction false} OneMoreRecorded(records: seq<Record>, n: nat, g: Graph, a: nat, b: nat, length: nat)
    requires n < |records| && AllRecorded(records, n, g)
    requires records[n] == Record(Value(a), Value(b), Value(length)) && (a, b) !in g && (b, a) !in g
    ensures AllRecorded(records, n + 1, Joined(g, a, b, length))
  {
    forall k | 0 <= k < n + 1
      ensures Recorded(records[k], Joined(g, a, b, length))
    {
      if k < n {
        RecordedStays(records[k], g, a, b, length);
      }
    }
  }

  lemma {:induction false} OneMoreBacked(records: seq<Record>, n: nat, g: Graph, a: nat, b: nat, length: nat)
    requires n < |records| && AllBacked(records, n, g)
    requires records[n] == Record(Value(a), Value(b), Value(length))
    ensures AllBacked(records, n + 1, Joined(g, a, b, length))
  {
    forall e | e in Joined(g, a, b, length)
      ensures Backed(records, n + 1, e)
    {
      if e in g {
        BackedStays(records, n, e);
      } else {
        BackedBy(records, n + 1, n, e);
      }
    }
  }

  /** What the loader has after n lines: a valid network that those lines describe, two row entries for each. */
  ghost predicate Built(records: seq<Record>, n: nat, stations: nat, net: Net) {
    && Sound(net) && net.stations == stations
    && Describes(records, n, Links(net))
    && Sum(net.counts) == 2 * n
    && (AllLoopFree(net) <==> NoLoops(records, n))
  }

  lemma {:induction false} NothingBuilt(records: seq<Record>, stations: nat)
    requires stations <= SAFE_STATIONS
    ensures Built(records, 0, stations, Empty(stations))
  {
    EmptyIsValid(stations);
    ValidIffLoopFree(Empty(stations));
    SumOfConstant(Empty(stations).counts, 0);
  }

  lemma {:induction false} OneMoreLoop(records: seq<Record>, n: nat)
    requires n < |records|
    ensures NoLoops(records, n + 1) <==> NoLoops(records, n) && !IsLoop(records[n])
  {}

  lemma {:induction false} LineAccepted(records: seq<Record>, n: nat, stations: nat, net: Net)
    requires Built(records, n, stations, net) && n < |records|
    requires records[n].a.Value? && records[n].b.Value? && records[n].length.Value? && records[n].length.n > 0
    ensures var r := records[n];
            Add(net, r.a.n, r.b.n, r.length.n).1 == 0 <==> LineIsGood(records, stations, n)
  {
    var r := records[n];
    AddIsMapUpdate(net, r.a.n, r.b.n, r.length.n);
    LinkedIffRepeated(records, n, Links(net), r.a.n, r.b.n);
  }

  lemma {:induction false} LineDescribed(records: seq<Record>, n: nat, net: Net)
    requires Sound(net) && n < |records| && Describes(records, n, Links(net))
    requires records[n].a.Value? && records[n].b.Value? && records[n].length.Value?
    requires var r := records[n]; Add(net, r.a.n, r.b.n, r.length.n).1 == 0
    ensures var r := records[n]; Describes(records, n + 1, Links(Add(net, r.a.n, r.b.n, r.length.n).0))
  {
    var r := records[n];
    AddIsMapUpdate(net, r.a.n, r.b.n, r.length.n);
    LinkEntry(net, (r.b.n, r.a.n));
    assert (r.b.n, r.a.n) !in Links(net);
    OneMoreRecorded(records, n, Links(net), r.a.n, r.b.n, r.length.n);
    OneMoreBacked(records, n, Links(net), r.a.n, r.b.n, r.length.n);
  }

  lemma {:induction false} LineLooped(records: seq<Record>, n: nat, net: Net)
    requires Sound(net) && n < |records| && (AllLoopFree(net) <==> NoLoops(records, n))
    requires records[n].a.Value? && records[n].b.Value? && records[n].length.Value?
    requires var r := records[n]; Add(net, r.a.n, r.b.n, r.length.n).1 == 0
    ensures var r := records[n]; AllLoopFree(Add(net, r.a.n, r.b.n, r.length.n).0) <==> NoLoops(records, n + 1)
  {
    var r := records[n];
    AddKeepsSound(net, r.a.n, r.b.n, r.length.n);
    ValidIffLoopFree(net);
    ValidIffLoopFree(Add(net, r.a.n, r.b.n, r.length.n).0);
    AddKeepsValidIff(net, r.a.n, r.b.n, r.length.n);
    OneMoreLoop(records, n);
  }

  /** One line more: it is accepted exactly when it is good, and then the network describes it too. */
  lemma {:induction false} LineEffect(records: seq<Record>, n: nat, stations: nat, net: Net)
    requires Built(records, n, stations, net) && n < |records|
    requires records[n].a.Value? && records[n].b.Value? && records[n].length.Value? && records[n].length.n > 0
    ensures var r := records[n];
            var (m, code) := Add(net, r.a.n, r.b.n, r.length.n);
            && (code == 0 <==> LineIsGood(records, stations, n))
            && (code == 0 ==> Built(records, n + 1, stations, m))
  {
    var r := records[n];
    LineAccepted(records, n, stations, net);
    if Add(net, r.a.n, r.b.n, r.length.n).1 == 0 {
      AddKeepsSound(net, r.a.n, r.b.n, r.length.n);
      LineDescribed(records, n, net);
      LineLooped(records, n, net);
      AddRaisesDegrees(net, r.a.n, r.b.n, r.length.n);
    }
  }

  /** The network after the first n lines. */
  ghost function LinesAdded(records: seq<Record>, n: nat, stations: nat): Net
    requires n <= |records|
  {
    if n == 0 then Empty(stations)
    else
      var net, r := LinesAdded(records, n - 1, stations), records[n - 1];
      if Sound(net) && r.a.Value? && r.b.Value? && r.length.Value?
      then Add(net, r.a.n, r.b.n, r.length.n).0 else net
  }

  /** Good lines build a network that they describe. */
  lemma {:induction false} LinesBuild(records: seq<Record>, n: nat, stations: nat)
    requires n <= |records| && stations <= SAFE_STATIONS && LinesAreGood(records, stations, n)
    ensures Built(records, n, stations, LinesAdded(records, n, stations))
  {
    if n == 0 {
      NothingBuilt(records, stations);
    } else {
      LinesBuild(records, n - 1, stations);
      assert LineIsGood(records, stations, n - 1);
      LineEffect(records, n - 1, stations, LinesAdded(records, n - 1, stations));
    }
  }

  lemma {:induction false} OneMoreLine(records: seq<Record>, stations: nat, i: nat)
    requires LinesAreGood(records, stations, i)
    ensures LineIsGood(records, stations, i) <==> LinesAreGood(records, stations, i + 1)
  {}

  lemma {:induction false} FewerLines(records: seq<Record>, stations: nat, i: nat, n: int)
    requires i <= n
    ensures LinesAreGood(records, stations, n) ==> LinesAreGood(records, stations, i)
  {}

  /** One turn of the loading loop: read line i, complain about it, or add it. */
  method LoadLine(net: Network, records: seq<Record>, i: nat) returns (verdict: Verdict)
    requires net.Separate() && i <= |records|
    requires var n := Charted(net.stationCount);
             LinesAreGood(records, n, i) && net.Contents() == LinesAdded(records, i, n)
    modifies net.neighbourList, net.neighbourCount, net.connectionLengths
    ensures verdict == Loaded <==> LinesAreGood(records, Charted(net.stationCount), i + 1)
    ensures verdict == Loaded ==>
              i < |records| && net.Contents() == LinesAdded(records, i + 1, Charted(net.stationCount))
    ensures verdict != Loaded ==> Complains(verdict, records, net.stationCount) && verdict.line == i
  {
    ghost var n := Charted(net.stationCount);
    OneMoreLine(records, n, i);
    if i >= |records| || records[i].a == Missing || records[i].a.n == INVALID_STATION {
      return BadStationA(i);
    }
    if records[i].b == Missing || records[i].b.n == INVALID_STATION {
      return BadStationB(i);
    }
    if records[i].length == Missing || records[i].length.n == 0 {
      return BadLength(i);
    }
    LinesBuild(records, i, n);
    LineEffect(records, i, n, net.Contents());
    var code, strayed := net.AddConnection(records[i].a.n, records[i].b.n, records[i].length.n);
    return if strayed then Strayed(i) else if code != 0 then CannotAdd(i) else Loaded;
  }

  /** The loading loop. */
  method LoadLines(net: Network, records: seq<Record>, connections: int) returns (verdict: Verdict)
    requires net.Separate() && net.Contents() == Empty(Charted(net.stationCount))
    modifies net.neighbourList, net.neighbourCount, net.connectionLengths
    ensures verdict == Loaded <==> LinesAreGood(records, Charted(net.stationCount), connections)
    ensures verdict == Loaded ==>
              && Lines(connections) <= |records|
              && net.Contents() == LinesAdded(records, Lines(connections), Charted(net.stationCount))
    ensures verdict != Loaded ==>
              && Complains(verdict, records, net.stationCount) && verdict.line < Lines(connections)
              && LinesAreGood(records, Charted(net.stationCount), verdict.line)
  {
    ghost var n := Charted(net.stationCount);
    var i := 0;
    while i < connections
      invariant 0 <= i <= Lines(connections) && i <= |records| && net.Separate()
      invariant LinesAreGood(records, n, i) && net.Contents() == LinesAdded(records, i, n)
    {
      verdict := LoadLine(net, records, i);
      if verdict != Loaded {
        FewerLines(records, n, i + 1, connections);
        return;
      }
      i := i + 1;
    }
    assert i == Lines(connections);
    return Loaded;
  }

  /**
   Reads the description. It loads exactly when every line names two stations in range and a positive length for a pair
   not joined before, and none goes beyond the tables; the network then has the lines' connections and no others, and is
   valid exactly when no line joins a station to itself. Otherwise the verdict tells what is missing, or the first line
   that is not good and what is wrong with it. `Strayed` stands for what the original leaves undefined: this line is
   usable, but its place is beyond the tables. With fewer than 32 stations that cannot happen.
   */
  method CreateRailway(stations: Field<nat>, connections: Field<int>, records: seq<Record>)
    returns (net: Network, verdict: Verdict)
    ensures verdict == Loaded <==>
              FileIsGood(stations, connections, records) && AllInTables(records, connections.n)
    ensures verdict == Loaded ==>
              && net.stationCount == stations.n
              && Built(records, Lines(connections.n), Charted(stations.n), net.Contents())
    ensures verdict == NoStationCount <==> stations == Missing || stations.n == 0
    ensures verdict == NoConnectionCount <==>
              verdict != NoStationCount && (connections == Missing || connections.n == 0)
    ensures verdict == TooManyStations <==>
              verdict != NoStationCount && verdict != NoConnectionCount && stations.n > MAX_STATIONS
    ensures verdict.NoStationCount? || verdict.NoConnectionCount? || verdict.TooManyStations? || verdict.Loaded?
            || (&& Complains(verdict, records, stations.n) && verdict.line < Lines(connections.n)
                && LinesAreGood(records, stations.n, verdict.line) && AllInTables(records, verdict.line))
    ensures verdict.Strayed? ==> SAFE_STATIONS < stations.n <= MAX_STATIONS
  {
    net := new Network();
    if stations == Missing || stations.n == 0 {
      return net, NoStationCount;
    }
    if connections == Missing || connections.n == 0 {
      return net, NoConnectionCount;
    }
    if stations.n > MAX_STATIONS {
      return net, TooManyStations;
    }
    net.stationCount := stations.n;
    ghost var n := Charted(stations.n);
    assert net.Contents() == Empty(n);
    verdict := LoadLines(net, records, connections.n);
    ChartedLines(records, stations.n, connections.n);
    if verdict == Loaded {
      LinesBuild(records, Lines(connections.n), n);
    } else {
      ChartedLines(records, stations.n, verdict.line);
    }
  }
}
