/** The ring never blocks, no pipe overflows, and nobody gets far ahead; and how the game gets its start. */
module ShipGameProgress {
  import opened Sequences
  import opened Dealing
  import opened ShipGame

  lemma {:induction false} SomeTerm(a: seq<int>) returns (i: nat)
    requires Sum(a) > 0
    ensures i < |a| && a[i] > 0
  {
    if a[0] > 0 {
      i := 0;
    } else {
      i := SomeTerm(a[1..]);
      i := i + 1;
    }
  }

  /** Until the parent stops the game, some player can send or receive: no ring of blocked readers ever forms. */
  lemma {:induction false} SomebodyCanPlay(r: Ring) returns (a: Action)
    requires Inv(r) && !r.over && |r.hands| > 0
    ensures Enabled(r, a) && !a.Stop?
  {
    if i :| 0 <= i < |r.waiting| && !r.waiting[i] {
      assert HandIsGood(r, i);
      NoGapsMeansFull(r.hands[i]);
      a := Send(i, 0);
    } else {
      SumOfConstant(Bits(r.waiting), 1);
      var p := SomeTerm(Lengths(r.pipes));
      a := Receive(Next(p, |r.hands|));
    }
  }

  lemma {:induction false} BitsAreFew(bs: seq<bool>)
    ensures 0 <= Sum(Bits(bs)) <= |bs|
  {
    if bs != [] {
      assert Bits(bs)[1..] == Bits(bs[1..]);
      BitsAreFew(bs[1..]);
    }
  }

  /** No pipe ever holds more cards than there are players, so a send never blocks on a full pipe. */
  lemma {:induction false} PipesStayShort(r: Ring, run: seq<Action>, i: nat)
    requires Initial(r) && Legal(r, run) && i < |r.pipes|
    ensures |After(r, run).pipes[i]| <= |r.hands|
    ensures Sum(Lengths(After(r, run).pipes)) == Sum(Bits(After(r, run).waiting)) <= |r.hands|
  {
    InitialInv(r);
    RunKeepsInv(r, run);
    var t := After(r, run);
    BitsAreFew(t.waiting);
    SumIsNonNegative(Lengths(t.pipes));
    assert Lengths(t.pipes)[i] <= Sum(Lengths(t.pipes));
  }

  /** How often player i sends, and receives, in a schedule. */
  function Sends(run: seq<Action>, i: nat): nat {
    if run == [] then 0 else (if run[0].Send? && run[0].i == i then 1 else 0) + Sends(run[1..], i)
  }

  function Receipts(run: seq<Action>, i: nat): nat {
    if run == [] then 0 else (if run[0] == Receive(i) then 1 else 0) + Receipts(run[1..], i)
  }

  /** A pipe gains what its writer sends and loses what its reader receives. */
  lemma {:induction false} PipeBalance(r: Ring, run: seq<Action>, i: nat)
    requires |r.hands| == |r.pipes| == |r.waiting| && Legal(r, run) && i < |r.hands|
    ensures |After(r, run).pipes[i]| == |r.pipes[i]| + Sends(run, i) - Receipts(run, Next(i, |r.hands|))
    decreases |run|
  {
    if run != [] {
      PipeBalance(Apply(r, run[0]), run[1..], i);
    }
  }

  /** A player alternates: it waits exactly when it has sent once more than it has received. */
  lemma {:induction false} PlayerAlternates(r: Ring, run: seq<Action>, i: nat)
    requires |r.hands| == |r.pipes| == |r.waiting| && Legal(r, run) && i < |r.hands|
    ensures Bits(After(r, run).waiting)[i] == Bits(r.waiting)[i] + Sends(run, i) - Receipts(run, i)
    decreases |run|
  {
    if run != [] {
      PlayerAlternates(Apply(r, run[0]), run[1..], i);
    }
  }

  /** The player `d` places further round the ring. */
  function Further(i: nat, d: nat, n: nat): (j: nat)
    requires i < n
    ensures j < n
    decreases d
  {
    if d == 0 then i else Next(Further(i, d - 1, n), n)
  }

  lemma {:induction false} NextIsClose(r: Ring, run: seq<Action>, i: nat)
    requires Initial(r) && Legal(r, run) && i < |r.hands|
    ensures Sends(run, Next(i, |r.hands|)) <= Sends(run, i) + 1
  {
    var j := Next(i, |r.hands|);
    PipeBalance(r, run, i);
    PlayerAlternates(r, run, j);
    assert Bits(After(r, run).waiting)[j] <= 1;
  }

  /** The player d places on has sent at most d cards more. */
  lemma {:induction false} FurtherIsClose(r: Ring, run: seq<Action>, i: nat, d: nat)
    requires Initial(r) && Legal(r, run) && i < |r.hands|
    ensures Sends(run, Further(i, d, |r.hands|)) <= Sends(run, i) + d
    decreases d
  {
    if d > 0 {
      FurtherIsClose(r, run, i, d - 1);
      NextIsClose(r, run, Further(i, d - 1, |r.hands|));
    }
  }

  lemma {:induction false} EverybodyIsFurther(i: nat, j: nat, n: nat)
    requires i < n && j < n
    ensures Further(i, if j >= i then j - i else j - i + n, n) == j
  {
    FurtherAlong(i, if j >= i then j - i else j - i + n, n);
  }

  lemma {:induction false} FurtherAlong(i: nat, d: nat, n: nat)
    requires i < n && d < n
    ensures Further(i, d, n) == if i + d < n then i + d else i + d - n
    decreases d
  {
    if d > 0 {
      FurtherAlong(i, d - 1, n);
    }
  }

  /** Drift: in every run any two players' numbers of sent cards differ by at most the number of players less one. */
  lemma {:induction false} DriftIsBounded(r: Ring, run: seq<Action>, i: nat, j: nat)
    requires Initial(r) && Legal(r, run) && i < |r.hands| && j < |r.hands|
    ensures Sends(run, j) - Sends(run, i) <= |r.hands| - 1
  {
    var d := if j >= i then j - i else j - i + |r.hands|;
    EverybodyIsFurther(i, j, |r.hands|);
    FurtherIsClose(r, run, i, d);
  }

  /** The contents of the players' arrays. */
  ghost function Contents(players: seq<array<int>>): (rows: seq<seq<int>>)
    reads players
    ensures |rows| == |players| && forall i :: 0 <= i < |rows| ==> rows[i] == players[i][..]
  {
    seq(|players|, i requires 0 <= i < |players| reads players => players[i][..])
  }

  lemma {:induction false} HeldOfMore(rows: seq<seq<int>>, row: seq<int>)
    ensures Held(rows + [row]) == Held(rows) + Cards(row)
  {
    if rows == [] {
      assert [] + [row] == [row] && [row][1..] == [];
      assert Held([row]) == Cards(row) + Held([]);
    } else {
      assert (rows + [row])[1..] == rows[1..] + [row];
      HeldOfMore(rows[1..], row);
    }
  }

  lemma {:induction false} Regroup(deck: multiset<int>, hand: multiset<int>, held: multiset<int>, before: multiset<int>)
    requires deck + hand == before
    ensures deck + (held + hand) == before + held
  {
    assert deck + (held + hand) == (deck + hand) + held;
  }

  /** The first i players have their hands, the others have nothing yet. */
  ghost predicate HandsDealt(deck: seq<int>, rows: seq<seq<int>>, i: nat, m: nat, all: multiset<int>) {
    && i <= |rows|
    && (forall j :: 0 <= j < i ==> IsFull(rows[j]))
    && (forall j :: i <= j < |rows| ==> IsBlank(rows[j]) && |rows[j]| == m)
    && Cards(deck) + Held(rows[..i]) == all
  }

  lemma {:induction false} OneHandMore(deck: seq<int>, rows: seq<seq<int>>, i: nat, m: nat, all: multiset<int>,
                                       left: seq<int>, hand: seq<int>)
    requires HandsDealt(deck, rows, i, m, all) && i < |rows| && |hand| == m
    requires Dealt(left, hand, m, Cards(deck))
    ensures HandsDealt(left, rows[i := hand], i + 1, m, all)
  {
    assert rows[i := hand][..i + 1] == rows[..i] + [hand];
    HeldOfMore(rows[..i], hand);
    Regroup(Cards(left), Cards(hand), Held(rows[..i]), Cards(deck));
  }

  /** What each player finds in the deck, in turn; no slot can be found twice. */
  ghost predicate AllFound(deck: seq<int>, picks: seq<seq<nat>>, m: nat) {
    && (forall i :: 0 <= i < |picks| ==> |picks[i]| == m && FoundCards(deck, picks[i]))
    && (forall i, j, k :: 0 <= i < j < |picks| && 0 <= k < m ==> picks[j][k] !in picks[i])
  }

  /** The slots picked hold what they held. */
  ghost predicate Stays(was: seq<int>, deck: seq<int>, pick: seq<nat>) {
    |deck| == |was| && forall k :: 0 <= k < |pick| && pick[k] < |was| ==> deck[pick[k]] == was[pick[k]]
  }

  /** The picks of the players from i on are still where they were. */
  ghost predicate StillThere(was: seq<int>, deck: seq<int>, picks: seq<seq<nat>>, i: nat) {
    |deck| == |was| && forall j :: i <= j < |picks| ==> Stays(was, deck, picks[j])
  }

  /** The hand holds the cards of its picks. */
  ghost predicate Found(was: seq<int>, hand: seq<int>, pick: seq<nat>) {
    |hand| == |pick| && forall k :: 0 <= k < |pick| ==> pick[k] < |was| && hand[k] == was[pick[k]]
  }

  /** The first i players hold what they found. */
  ghost predicate HaveFound(was: seq<int>, rows: seq<seq<int>>, picks: seq<seq<nat>>, i: nat) {
    i <= |rows| && i <= |picks| && forall j :: 0 <= j < i ==> Found(was, rows[j], picks[j])
  }

  /** Player i's picks are in the deck to be found, and nobody else's are lost by it. */
  lemma {:induction false} StillFound(was: seq<int>, deck: seq<int>, picks: seq<seq<nat>>, i: nat, m: nat)
    requires AllFound(was, picks, m) && i < |picks| && StillThere(was, deck, picks, i)
    ensures FoundCards(deck, picks[i])
    ensures forall k :: 0 <= k < m ==> deck[picks[i][k]] == was[picks[i][k]]
  {
    assert Stays(was, deck, picks[i]) && FoundCards(was, picks[i]);
  }

  lemma {:induction false} OneDealtMore(was: seq<int>, deck: seq<int>, picks: seq<seq<nat>>, i: nat, m: nat)
    requires AllFound(was, picks, m) && i < |picks| && StillThere(was, deck, picks, i)
    ensures StillThere(was, Emptied(deck, picks[i]), picks, i + 1)
  {
    forall j | i + 1 <= j < |picks|
      ensures Stays(was, Emptied(deck, picks[i]), picks[j])
    {
      assert Stays(was, deck, picks[j]);
    }
  }

  lemma {:induction false} OneFoundMore(was: seq<int>, deck: seq<int>, rows: seq<seq<int>>, picks: seq<seq<nat>>,
                                        i: nat, m: nat)
    requires AllFound(was, picks, m) && i < |picks| == |rows| && StillThere(was, deck, picks, i)
    requires HaveFound(was, rows, picks, i)
    ensures FoundCards(deck, picks[i]) && HaveFound(was, rows[i := HandOf(deck, picks[i])], picks, i + 1)
  {
    StillFound(was, deck, picks, i, m);
    forall j | 0 <= j < i + 1
      ensures Found(was, rows[i := HandOf(deck, picks[i])][j], picks[j])
    {
      assert j < i ==> Found(was, rows[j], picks[j]);
    }
  }

  /** With i players served: what is conserved, what is still to be found, and who holds what. */
  ghost predicate Serving(was: seq<int>, deck: seq<int>, rows: seq<seq<int>>, picks: seq<seq<nat>>, i: nat, m: nat) {
    && AllFound(was, picks, m) && |picks| == |rows|
    && HandsDealt(deck, rows, i, m, Cards(was)) && StillThere(was, deck, picks, i) && HaveFound(was, rows, picks, i)
  }

  lemma {:induction false} OnePlayerMore(was: seq<int>, deck: seq<int>, rows: seq<seq<int>>, picks: seq<seq<nat>>,
                                         i: nat, m: nat)
    requires Serving(was, deck, rows, picks, i, m) && i < |rows| && FoundCards(deck, picks[i])
    requires Dealt(Emptied(deck, picks[i]), HandOf(deck, picks[i]), m, Cards(deck))
    ensures Serving(was, Emptied(deck, picks[i]), rows[i := HandOf(deck, picks[i])], picks, i + 1, m)
  {
    OneHandMore(deck, rows, i, m, Cards(was), Emptied(deck, picks[i]), HandOf(deck, picks[i]));
    OneDealtMore(was, deck, picks, i, m);
    OneFoundMore(was, deck, rows, picks, i, m);
  }

  /** The hands are arrays of m slots, the deck is another, and no two are the same. */
  ghost predicate Apart(deck: array<int>, players: seq<array<int>>, m: nat) {
    && (forall i :: 0 <= i < |players| ==> players[i].Length == m && players[i] != deck)
    && (forall i, j :: 0 <= i < j < |players| ==> players[i] != players[j])
  }

  /** One player's turn. */
  method DealTo(deck: array<int>, players: seq<array<int>>, picks: seq<seq<nat>>, i: nat, m: nat, ghost was: seq<int>)
    requires Apart(deck, players, m) && i < |players|
    requires Serving(was, deck[..], Contents(players), picks, i, m)
    modifies deck, players[i]
    ensures Serving(was, deck[..], Contents(players), picks, i + 1, m)
  {
    ghost var before, rows := deck[..], Contents(players);
    StillFound(was, before, picks, i, m);
    DealRandomCards(deck, players[i], picks[i]);
    OnePlayerMore(was, before, rows, picks, i, m);
    assert Contents(players) == rows[i := players[i][..]];
  }

  /**
   Dealing to every player in turn: each hand holds the cards that its draws found in the deck, all are full, and
   nothing is lost from the deck.
   */
  method DealHands(deck: array<int>, players: seq<array<int>>, picks: seq<seq<nat>>, m: nat)
    requires Apart(deck, players, m) && |picks| == |players| && AllFound(deck[..], picks, m)
    requires HandsDealt(deck[..], Contents(players), 0, m, Cards(deck[..]))
    modifies deck, players
    ensures HandsDealt(deck[..], Contents(players), |players|, m, old(Cards(deck[..])))
    ensures HaveFound(old(deck[..]), Contents(players), picks, |players|)
  {
    ghost var was := deck[..];
    for i := 0 to |players|
      invariant Serving(was, deck[..], Contents(players), picks, i, m)
    {
      DealTo(deck, players, picks, i, m, was);
    }
  }
}
