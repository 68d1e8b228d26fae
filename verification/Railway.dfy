/**
 The railway network: neighbour rows with counts, and per-connection tables indexed by station pairs. The value type
 `Net` describes the contents of the shared structure; `Network` is the structure itself, updated in place.
 */
module Railway {
  import opened Sequences

  const MAX_STATIONS := 64
  const INVALID_STATION := MAX_STATIONS
  const ROW := MAX_STATIONS - 1
  const MAX_CONNECTIONS := ((MAX_STATIONS - 1) * MAX_STATIONS) / 2

  /** The largest station count whose connection indices all lie inside the connection tables. */
  const SAFE_STATIONS := 31

  datatype Net = Net(stations: nat, rows: seq<seq<nat>>, counts: seq<nat>, lengths: seq<nat>, broken: seq<bool>)

  function IndexOf(a: nat, b: nat): nat {
    a * MAX_STATIONS + b
  }

  /** The decoder undoes the encoder. */
  lemma {:induction false} DecodeOfEncode(a: nat, b: nat)
    requires b < MAX_STATIONS
    ensures IndexOf(a, b) / MAX_STATIONS == a && IndexOf(a, b) % MAX_STATIONS == b
  {}

  lemma {:induction false} EncodeIsInjective(a: nat, b: nat, c: nat, d: nat)
    requires b < MAX_STATIONS && d < MAX_STATIONS && IndexOf(a, b) == IndexOf(c, d)
    ensures a == c && b == d
  {
    DecodeOfEncode(a, b);
    DecodeOfEncode(c, d);
  }

  method ConvertIdxToConnection(idx: nat) returns (a: nat, b: nat)
    ensures b < MAX_STATIONS && IndexOf(a, b) == idx
    ensures forall c: nat, d: nat :: d < MAX_STATIONS && IndexOf(c, d) == idx ==> c == a && d == b
  {
    a := idx / MAX_STATIONS;
    b := idx % MAX_STATIONS;
    forall c: nat, d: nat | d < MAX_STATIONS && IndexOf(c, d) == idx
      ensures c == a && d == b
    {
      EncodeIsInjective(c, d, a, b);
    }
  }

  /**
   The range check admits stations 0..n for a station count of n. All their connection indices lie inside the
   connection tables if and only if n is at most 31.
   */
  lemma {:induction false} IndicesFitIff(n: nat)
    ensures (forall a: nat, b: nat :: a <= n && b <= n ==> IndexOf(a, b) < MAX_CONNECTIONS) <==> n <= SAFE_STATIONS
  {
    if n > SAFE_STATIONS {
      assert IndexOf(n, n) >= MAX_CONNECTIONS;
    }
  }

  /** Of the stations 0..n, the last one whose connections with all before it have their places in the tables. */
  function Charted(n: nat): nat {
    if n <= SAFE_STATIONS then n else SAFE_STATIONS
  }

  /**
   A pair of stations has its places in the connection tables, both ways, exactly when both are among the first 32.
   */
  lemma {:induction false} PairFitsIff(a: nat, b: nat)
    requires a <= MAX_STATIONS && b <= MAX_STATIONS
    ensures IndexOf(a, b) < MAX_CONNECTIONS && IndexOf(b, a) < MAX_CONNECTIONS
       <==> a <= SAFE_STATIONS && b <= SAFE_STATIONS
  {}

  predicate Shaped(net: Net) {
    && |net.rows| == MAX_STATIONS && |net.counts| == MAX_STATIONS
    && |net.lengths| == MAX_CONNECTIONS && |net.broken| == MAX_CONNECTIONS
    && net.stations <= SAFE_STATIONS
    && (forall a :: 0 <= a < MAX_STATIONS ==> |net.rows[a]| == ROW && net.counts[a] <= ROW)
  }

  function Neighbours(net: Net, a: nat): seq<nat>
    requires Shaped(net) && a < MAX_STATIONS
  {
    net.rows[a][..net.counts[a]]
  }

  /** What the network promises about one station's row. */
  ghost predicate RowIsGood(net: Net, a: nat)
    requires Shaped(net) && a < MAX_STATIONS
  {
    var row := Neighbours(net, a);
    && (a > net.stations ==> row == [])
    && Distinct(row)
    && (forall b :: b in row ==> b <= net.stations && b != a)
    && UnusedIsInvalid(net, a)
  }

  /** What is behind a row's last entry has never been written. */
  ghost predicate UnusedIsInvalid(net: Net, a: nat)
    requires Shaped(net) && a < MAX_STATIONS
  {
    forall i :: net.counts[a] <= i < ROW ==> net.rows[a][i] == INVALID_STATION
  }

  /** What it promises about a pair of stations: neighbours of each other, at the same length both ways. */
  ghost predicate PairIsGood(net: Net, a: nat, b: nat)
    requires Shaped(net) && a <= net.stations && b <= net.stations
  {
    && (b in Neighbours(net, a) <==> a in Neighbours(net, b))
    && (b in Neighbours(net, a) ==> net.lengths[IndexOf(a, b)] == net.lengths[IndexOf(b, a)])
  }

  ghost predicate Valid(net: Net) {
    && Shaped(net)
    && (forall a :: 0 <= a < MAX_STATIONS ==> RowIsGood(net, a))
    && (forall a, b :: 0 <= a <= net.stations && 0 <= b <= net.stations ==> PairIsGood(net, a, b))
  }

  /** A row that may list its own station once, and then has one entry that is none. */
  ghost predicate RowIsSound(net: Net, a: nat)
    requires Shaped(net) && a < MAX_STATIONS
  {
    var row := Neighbours(net, a);
    && (a > net.stations ==> row == [])
    && Distinct(row)
    && (forall b :: b in row ==> b <= net.stations || (b == INVALID_STATION && a in row))
    && UnusedIsInvalid(net, a)
  }

  /** What every sequence of additions keeps, stations joined to themselves included. */
  ghost predicate Sound(net: Net) {
    && Shaped(net)
    && (forall a :: 0 <= a < MAX_STATIONS ==> RowIsSound(net, a))
    && (forall a, b :: 0 <= a <= net.stations && 0 <= b <= net.stations ==> PairIsGood(net, a, b))
  }

  /** Station a is not joined to itself. */
  predicate LoopFree(net: Net, a: nat)
    requires Shaped(net) && a < MAX_STATIONS
  {
    a !in Neighbours(net, a)
  }

  ghost predicate AllLoopFree(net: Net)
    requires Shaped(net)
  {
    forall a :: 0 <= a < MAX_STATIONS ==> LoopFree(net, a)
  }

  /** A sound network is valid exactly when no station is joined to itself. */
  lemma {:induction false} ValidIffLoopFree(net: Net)
    requires Shaped(net)
    ensures Valid(net) <==> Sound(net) && AllLoopFree(net)
  {
    if Valid(net) {
      forall a | 0 <= a < MAX_STATIONS
        ensures RowIsSound(net, a) && LoopFree(net, a)
      {
        assert RowIsGood(net, a);
      }
    }
    if Sound(net) && AllLoopFree(net) {
      forall a | 0 <= a < MAX_STATIONS
        ensures RowIsGood(net, a)
      {
        assert RowIsSound(net, a) && LoopFree(net, a);
      }
    }
  }

  lemma {:induction false} Pigeonhole(s: seq<nat>, n: nat)
    requires Distinct(s) && forall x :: x in s ==> x < n
    ensures |s| <= n
  {
    if s != [] {
      assert s[0] in s;
      assert s[0] < n;
      if n - 1 in s {
        var k :| 0 <= k < |s| && s[k] == n - 1;
        var t := s[..k] + s[k + 1..];
        forall x | x in t
          ensures x < n - 1
        {
          var i :| 0 <= i < |t| && t[i] == x;
          var j := if i < k then i else i + 1;
          assert s[j] in s && s[j] != s[k] && x == s[j];
        }
        Pigeonhole(t, n - 1);
      } else {
        Pigeonhole(s, n - 1);
      }
    }
  }

  /** A sound row has room: it lists at most the stations, and one entry that is none. */
  lemma {:induction false} RowHasRoom(net: Net, a: nat, b: nat)
    requires Shaped(net) && a <= net.stations && b <= net.stations && RowIsSound(net, a)
    requires b !in Neighbours(net, a)
    ensures net.counts[a] <= net.stations + 1
  {
    var row := Neighbours(net, a);
    var renamed: seq<nat> := seq(|row|, i requires 0 <= i < |row| => Renamed(net, row[i])) + [b];
    forall i | 0 <= i < |row|
      ensures row[i] in row && row[i] != b
    {}
    assert Distinct(renamed);
    Pigeonhole(renamed, net.stations + 2);
  }

  /** Stations as they are, and the one other entry as the number after the last station. */
  function Renamed(net: Net, b: nat): nat {
    if b == INVALID_STATION then net.stations + 1 else b
  }

  /** The network of a freshly created, zeroed shared object after its initialisation. */
  function Empty(stations: nat): Net {
    Net(stations, seq(MAX_STATIONS, _ => seq(ROW, _ => INVALID_STATION)), seq(MAX_STATIONS, _ => 0),
        seq(MAX_CONNECTIONS, _ => 0), seq(MAX_CONNECTIONS, _ => false))
  }

  lemma {:induction false} EmptyIsValid(n: nat)
    requires n <= SAFE_STATIONS
    ensures Valid(Empty(n))
  {}

  /** What the initialisation writes: the two counts and the neighbour table. The rest of the object stays. */
  function Initialised(net: Net): (n: Net)
    requires Shaped(net)
    ensures Shaped(n) && n.stations == 0
    ensures forall a, j :: 0 <= a < MAX_STATIONS && 0 <= j < ROW ==> n.rows[a][j] == INVALID_STATION
    ensures n.counts == net.counts && n.lengths == net.lengths && n.broken == net.broken
  {
    net.(stations := 0, rows := Empty(0).rows)
  }

  /**
   On an object left by an earlier execution the initialisation gives a valid network exactly when no row had entries.
   */
  lemma {:induction false} InitialisedIsValidIff(net: Net)
    requires Shaped(net)
    ensures Valid(Initialised(net)) <==> forall a :: 0 <= a < MAX_STATIONS ==> net.counts[a] == 0
  {
    var n := Initialised(net);
    if a :| 0 <= a < MAX_STATIONS && net.counts[a] > 0 {
      assert Neighbours(n, a)[0] == INVALID_STATION;
      assert INVALID_STATION in Neighbours(n, a);
      assert !RowIsGood(n, a);
    }
  }

  predicate Refuses(net: Net, a: nat, b: nat)
    requires Shaped(net)
  {
    || a > net.stations || b > net.stations
    || b in Neighbours(net, a) || a in Neighbours(net, b)
  }

  /** The four writes of an addition, in program order; the second row is the first one again when a == b. */
  function Added(net: Net, a: nat, b: nat, length: nat): (n: Net)
    requires Shaped(net) && a <= net.stations && b <= net.stations && net.counts[a] + 1 < ROW && net.counts[b] + 1 < ROW
    ensures Shaped(n)
  {
    var rowA: seq<nat> := net.rows[a][net.counts[a] := b];
    var rows: seq<seq<nat>> := net.rows[a := rowA];
    var rowB: seq<nat> := rows[b][net.counts[b] := a];
    var counts: seq<nat> := net.counts[a := net.counts[a] + 1];
    net.(rows := rows[b := rowB],
         counts := counts[b := counts[b] + 1],
         lengths := net.lengths[IndexOf(a, b) := length][IndexOf(b, a) := length])
  }

  /** What an addition appends to row c; a station joined to itself gets two places and fills one. */
  function Appended(a: nat, b: nat, c: nat): seq<nat> {
    if c == a == b then [a, INVALID_STATION] else if c == a then [b] else if c == b then [a] else []
  }

  lemma {:induction false} AddedRows(net: Net, a: nat, b: nat, length: nat, c: nat)
    requires Sound(net) && a <= net.stations && b <= net.stations && !Refuses(net, a, b) && c < MAX_STATIONS
    ensures net.counts[a] + 1 < ROW && net.counts[b] + 1 < ROW
    ensures Neighbours(Added(net, a, b, length), c) == Neighbours(net, c) + Appended(a, b, c)
    ensures UnusedIsInvalid(Added(net, a, b, length), c)
  {
    assert RowIsSound(net, a) && RowIsSound(net, b) && RowIsSound(net, c);
    RowHasRoom(net, a, b);
    RowHasRoom(net, b, a);
  }

  lemma {:induction false} DistinctAppend(p: seq<nat>, q: seq<nat>)
    requires Distinct(p) && Distinct(q) && forall j :: 0 <= j < |q| ==> q[j] !in p
    ensures Distinct(p + q)
  {}

  lemma {:induction false} AddedKeepsRow(net: Net, a: nat, b: nat, length: nat, c: nat)
    requires Sound(net) && a <= net.stations && b <= net.stations && !Refuses(net, a, b) && c < MAX_STATIONS
    ensures net.counts[a] + 1 < ROW && net.counts[b] + 1 < ROW && RowIsSound(Added(net, a, b, length), c)
  {
    AddedRows(net, a, b, length, c);
    assert RowIsSound(net, c);
    DistinctAppend(Neighbours(net, c), Appended(a, b, c));
  }

  lemma {:induction false} AddedKeepsPair(net: Net, a: nat, b: nat, length: nat, c: nat, d: nat)
    requires Sound(net) && a <= net.stations && b <= net.stations && !Refuses(net, a, b)
    requires c <= net.stations && d <= net.stations
    ensures net.counts[a] + 1 < ROW && net.counts[b] + 1 < ROW && PairIsGood(Added(net, a, b, length), c, d)
  {
    AddedRows(net, a, b, length, c);
    AddedRows(net, a, b, length, d);
    assert PairIsGood(net, c, d);
  }

  lemma {:induction false} AddedKeepsSound(net: Net, a: nat, b: nat, length: nat)
    requires Sound(net) && a <= net.stations && b <= net.stations && !Refuses(net, a, b)
    ensures net.counts[a] + 1 < ROW && net.counts[b] + 1 < ROW && Sound(Added(net, a, b, length))
  {
    AddedRows(net, a, b, length, 0);
    var n := Added(net, a, b, length);
    forall c | 0 <= c < MAX_STATIONS
      ensures RowIsSound(n, c)
    {
      AddedKeepsRow(net, a, b, length, c);
    }
    forall c, d | 0 <= c <= n.stations && 0 <= d <= n.stations
      ensures PairIsGood(n, c, d)
    {
      AddedKeepsPair(net, a, b, length, c, d);
    }
  }

  /** Adding a connection: the new network, and the code the caller sees. */
  function Add(net: Net, a: nat, b: nat, length: nat): (r: (Net, int))
    requires Sound(net)
    ensures Shaped(r.0) && r.0.stations == net.stations && (r.1 == 0 || r.1 == 1)
    ensures !Refuses(net, a, b) ==> net.counts[a] + 1 < ROW && net.counts[b] + 1 < ROW
  {
    if Refuses(net, a, b) then (net, 1)
    else
      assert net.counts[a] + 1 < ROW && net.counts[b] + 1 < ROW by {
        assert RowIsSound(net, a) && RowIsSound(net, b);
        RowHasRoom(net, a, b);
        RowHasRoom(net, b, a);
      }
      (Added(net, a, b, length), 0)
  }

  lemma {:induction false} AddKeepsSound(net: Net, a: nat, b: nat, length: nat)
    requires Sound(net)
    ensures Sound(Add(net, a, b, length).0)
  {
    if !Refuses(net, a, b) {
      AddedKeepsSound(net, a, b, length);
    }
  }

  lemma {:induction false} LoopAfterAdd(net: Net, a: nat, b: nat, length: nat, c: nat)
    requires Sound(net) && c < MAX_STATIONS
    ensures LoopFree(Add(net, a, b, length).0, c) <==> LoopFree(net, c) && (Refuses(net, a, b) || !(c == a == b))
  {
    if !Refuses(net, a, b) {
      AddedRows(net, a, b, length, c);
    }
  }

  /**
   An addition keeps the network valid if and only if it is refused or joins two different stations. A station joined
   to itself is not refused the first time, and gets a row with an entry that is no station.
   */
  lemma {:induction false} AddKeepsValidIff(net: Net, a: nat, b: nat, length: nat)
    requires Sound(net)
    ensures Valid(Add(net, a, b, length).0) <==> Valid(net) && (Refuses(net, a, b) || a != b)
  {
    var n := Add(net, a, b, length).0;
    AddKeepsSound(net, a, b, length);
    ValidIffLoopFree(net);
    ValidIffLoopFree(n);
    forall c | 0 <= c < MAX_STATIONS
      ensures LoopFree(n, c) <==> LoopFree(net, c) && (Refuses(net, a, b) || !(c == a == b))
    {
      LoopAfterAdd(net, a, b, length, c);
    }
    if a == b && a < MAX_STATIONS {
      assert LoopFree(n, a) ==> Refuses(net, a, b);
    }
  }

  /** The graph a network stands for: every linked ordered pair with its length. */
  ghost function Links(net: Net): map<(nat, nat), nat>
    requires Shaped(net)
  {
    map a: nat, b: nat | a <= net.stations && b <= net.stations && b in Neighbours(net, a) ::
      (a, b) := net.lengths[IndexOf(a, b)]
  }

  /** The map after an addition that links a and b. */
  ghost function Joined(m: map<(nat, nat), nat>, a: nat, b: nat, length: nat): map<(nat, nat), nat> {
    m[(a, b) := length][(b, a) := length]
  }

  /** The pair c, d is the pair a, b, one way or the other. */
  predicate SamePair(c: nat, d: nat, a: nat, b: nat) {
    (c == a && d == b) || (c == b && d == a)
  }

  lemma {:induction false} LinkAfterAdd(net: Net, a: nat, b: nat, length: nat, c: nat, d: nat)
    requires Sound(net) && !Refuses(net, a, b) && c <= net.stations && d <= net.stations
    ensures var n := Add(net, a, b, length).0;
            && (d in Neighbours(n, c) <==> d in Neighbours(net, c) || SamePair(c, d, a, b))
            && n.lengths[IndexOf(c, d)] == if SamePair(c, d, a, b) then length else net.lengths[IndexOf(c, d)]
  {
    AddedRows(net, a, b, length, c);
  }

  lemma {:induction false} LinkEntry(net: Net, e: (nat, nat))
    requires Shaped(net)
    ensures e in Links(net) <==> e.0 <= net.stations && e.1 <= net.stations && e.1 in Neighbours(net, e.0)
    ensures e in Links(net) ==> Links(net)[e] == net.lengths[IndexOf(e.0, e.1)]
  {}

  lemma {:induction false} EntryAfterAdd(net: Net, a: nat, b: nat, length: nat, e: (nat, nat))
    requires Sound(net) && !Refuses(net, a, b)
    ensures var m := Links(Add(net, a, b, length).0);
            && (e in m <==> e in Links(net) || SamePair(e.0, e.1, a, b))
            && (e in m ==> m[e] == if SamePair(e.0, e.1, a, b) then length else net.lengths[IndexOf(e.0, e.1)])
  {
    LinkEntry(net, e);
    LinkEntry(Add(net, a, b, length).0, e);
    if e.0 <= net.stations && e.1 <= net.stations {
      LinkAfterAdd(net, a, b, length, e.0, e.1);
    }
  }

  lemma {:induction false} EntryJoined(net: Net, a: nat, b: nat, length: nat, e: (nat, nat))
    requires Shaped(net)
    ensures var m := Joined(Links(net), a, b, length);
            && (e in m <==> e in Links(net) || SamePair(e.0, e.1, a, b))
            && (e in m ==> m[e] == if SamePair(e.0, e.1, a, b) then length else net.lengths[IndexOf(e.0, e.1)])
  {
    LinkEntry(net, e);
    assert SamePair(e.0, e.1, a, b) <==> e == (a, b) || e == (b, a);
  }

  ghost predicate SameEntry(m: map<(nat, nat), nat>, k: map<(nat, nat), nat>, e: (nat, nat)) {
    (e in m <==> e in k) && (e in m ==> m[e] == k[e])
  }

  lemma {:induction false} SameEntries(m: map<(nat, nat), nat>, k: map<(nat, nat), nat>)
    requires forall e :: SameEntry(m, k, e)
    ensures m == k
  {
    assert forall e :: e in m ==> SameEntry(m, k, e);
    assert forall e :: e in k ==> SameEntry(m, k, e);
  }

  lemma {:induction false} LinksAfterAdd(net: Net, a: nat, b: nat, length: nat)
    requires Sound(net) && !Refuses(net, a, b)
    ensures Links(Add(net, a, b, length).0) == Joined(Links(net), a, b, length)
  {
    var m, k := Links(Add(net, a, b, length).0), Joined(Links(net), a, b, length);
    forall e: (nat, nat)
      ensures SameEntry(m, k, e)
    {
      EntryAfterAdd(net, a, b, length, e);
      EntryJoined(net, a, b, length, e);
    }
    SameEntries(m, k);
  }

  /**
   Building a network is building a symmetric map: an addition is refused exactly when a station is out of range or
   the pair is already linked, and otherwise links the pair both ways at the given length and changes no other pair.
   */
  lemma {:induction false} AddIsMapUpdate(net: Net, a: nat, b: nat, length: nat)
    requires Sound(net)
    ensures Add(net, a, b, length).1 == 1 <==> a > net.stations || b > net.stations || (a, b) in Links(net)
    ensures Add(net, a, b, length).1 == 1 ==> Add(net, a, b, length).0 == net
    ensures Add(net, a, b, length).1 == 0 ==>
              Links(Add(net, a, b, length).0) == Joined(Links(net), a, b, length)
  {
    LinkEntry(net, (a, b));
    if a <= net.stations && b <= net.stations {
      assert PairIsGood(net, a, b);
    }
    if !Refuses(net, a, b) {
      LinksAfterAdd(net, a, b, length);
    }
  }

  /** Every accepted addition raises the sum of the neighbour counts by two. */
  lemma {:induction false} AddRaisesDegrees(net: Net, a: nat, b: nat, length: nat)
    requires Sound(net)
    ensures var (n, code) := Add(net, a, b, length); Sum(n.counts) == Sum(net.counts) + if code == 0 then 2 else 0
  {
    if !Refuses(net, a, b) {
      SumOfUpdate(net.counts, a, net.counts[a] + 1);
      var counts: seq<nat> := net.counts[a := net.counts[a] + 1];
      SumOfUpdate(counts, b, counts[b] + 1);
    }
  }
}
