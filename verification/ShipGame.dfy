/**
 "My ship sails": players in a ring, one pipe from each to the next. A player sends a card, then blocks until it has
 received one, looks at its hand, and starts over, a winner included, until the parent stops everybody.
 */
module ShipGame {
  import opened Sequences
  import opened Dealing

  datatype Ring = Ring(hands: seq<seq<int>>, pipes: seq<seq<int>>, waiting: seq<bool>, winners: seq<nat>, over: bool)

  datatype Action =
    | Send(i: nat, slot: nat)  // player i discards the card in a slot
    | Receive(i: nat)          // player i takes a card in, and may announce a win
    | Stop                     // the parent reads the first announcement and ends the game

  /** The player behind i, whose pipe it reads: (i - 1 + n) % n. */
  function Previous(i: nat, n: nat): (p: nat)
    requires i < n
    ensures p < n
  {
    if i == 0 then n - 1 else i - 1
  }

  function Next(i: nat, n: nat): (p: nat)
    requires i < n
    ensures p < n && Previous(p, n) == i
  {
    if i == n - 1 then 0 else i + 1
  }

  /** The ring: a player reads what the one before it, counted modulo their number, has written. */
  lemma {:induction false} ReadsFromBehind(i: nat, n: nat)
    requires i < n
    ensures (Previous(i, n) + 1) % n == i && Next(i, n) == (i + 1) % n
  {}

  ghost predicate Shaped(r: Ring) {
    && |r.hands| == |r.pipes| == |r.waiting|
    && forall i :: 0 <= i < |r.hands| ==> |r.hands[i]| > 0
  }

  /** The slot search: the first slot without a card, or one past the hand. */
  function FirstEmpty(hand: seq<int>): (i: nat)
    ensures i <= |hand| && (i < |hand| ==> hand[i] == EMPTY_SLOT)
    ensures forall k :: 0 <= k < i ==> hand[k] != EMPTY_SLOT
  {
    if hand == [] || hand[0] == EMPTY_SLOT then 0 else 1 + FirstEmpty(hand[1..])
  }

  predicate Enabled(r: Ring, a: Action)
    requires |r.hands| == |r.pipes| == |r.waiting|
  {
    && !r.over
    && match a
       case Send(i, slot) =>
         i < |r.hands| && !r.waiting[i] && slot < |r.hands[i]| && r.hands[i][slot] != EMPTY_SLOT
       case Receive(i) => i < |r.hands| && r.waiting[i] && r.pipes[Previous(i, |r.hands|)] != []
       case Stop => r.winners != []
  }

  /** The hand once a card has been put into its first empty slot. */
  function Filled(hand: seq<int>, card: int): (h: seq<int>)
    ensures |h| == |hand|
  {
    if FirstEmpty(hand) < |hand| then hand[FirstEmpty(hand) := card] else hand
  }

  function Apply(r: Ring, a: Action): (t: Ring)
    requires |r.hands| == |r.pipes| == |r.waiting| && Enabled(r, a)
    ensures |t.hands| == |t.pipes| == |t.waiting| == |r.hands|
  {
    match a
    case Send(i, slot) =>
      r.(hands := r.hands[i := r.hands[i][slot := EMPTY_SLOT]],
         pipes := r.pipes[i := r.pipes[i] + [r.hands[i][slot]]],
         waiting := r.waiting[i := true])
    case Receive(i) =>
      var p := Previous(i, |r.hands|);
      var hand := Filled(r.hands[i], r.pipes[p][0]);
      r.(hands := r.hands[i := hand], pipes := r.pipes[p := r.pipes[p][1..]], waiting := r.waiting[i := false],
         winners := if OneSuit(hand) then r.winners + [i] else r.winners)
    case Stop => r.(over := true)
  }

  predicate Legal(r: Ring, run: seq<Action>)
    requires |r.hands| == |r.pipes| == |r.waiting|
    decreases |run|
  {
    run == [] || (Enabled(r, run[0]) && Legal(Apply(r, run[0]), run[1..]))
  }

  function After(r: Ring, run: seq<Action>): (t: Ring)
    requires |r.hands| == |r.pipes| == |r.waiting| && Legal(r, run)
    ensures |t.hands| == |t.pipes| == |t.waiting| == |r.hands|
    decreases |run|
  {
    if run == [] then r else After(Apply(r, run[0]), run[1..])
  }

  /** Slots without a card. */
  function Gaps(hand: seq<int>): nat {
    multiset(hand)[EMPTY_SLOT]
  }

  /** A player about to send has a full hand; one about to receive has exactly one gap. */
  ghost predicate HandIsGood(r: Ring, i: nat)
    requires |r.hands| == |r.waiting| && i < |r.hands|
  {
    |r.hands[i]| > 0 && Gaps(r.hands[i]) == if r.waiting[i] then 1 else 0
  }

  ghost predicate PipeIsGood(r: Ring, i: nat)
    requires i < |r.pipes|
  {
    EMPTY_SLOT !in r.pipes[i]
  }

  /** All the cards in the rows of slots. */
  function Held(rows: seq<seq<int>>): multiset<int> {
    if rows == [] then multiset{} else Cards(rows[0]) + Held(rows[1..])
  }

  function Lengths(rows: seq<seq<int>>): (c: seq<int>)
    ensures |c| == |rows| && forall i :: 0 <= i < |c| ==> c[i] == |rows[i]|
  {
    seq(|rows|, i requires 0 <= i < |rows| => |rows[i]|)
  }

  function Bits(bs: seq<bool>): (c: seq<int>)
    ensures |c| == |bs| && forall i :: 0 <= i < |c| ==> c[i] == if bs[i] then 1 else 0
  {
    seq(|bs|, i requires 0 <= i < |bs| => if bs[i] then 1 else 0)
  }

  ghost predicate Inv(r: Ring) {
    && |r.hands| == |r.pipes| == |r.waiting|
    && (forall i :: 0 <= i < |r.hands| ==> HandIsGood(r, i))
    && (forall i :: 0 <= i < |r.pipes| ==> PipeIsGood(r, i))
    && Sum(Lengths(r.pipes)) == Sum(Bits(r.waiting))
  }

  lemma {:induction false} HeldLoses(rows: seq<seq<int>>, i: nat, row: seq<int>, c: int)
    requires i < |rows| && Cards(row) + multiset{c} == Cards(rows[i])
    ensures Held(rows[i := row]) + multiset{c} == Held(rows)
  {
    if i == 0 {
      assert rows[0 := row][1..] == rows[1..];
    } else {
      assert rows[i := row][1..] == rows[1..][i - 1 := row];
      HeldLoses(rows[1..], i - 1, row, c);
    }
  }

  lemma {:induction false} HeldGains(rows: seq<seq<int>>, i: nat, row: seq<int>, c: int)
    requires i < |rows| && Cards(row) == Cards(rows[i]) + multiset{c}
    ensures Held(rows[i := row]) == Held(rows) + multiset{c}
  {
    if i == 0 {
      assert rows[0 := row][1..] == rows[1..];
    } else {
      assert rows[i := row][1..] == rows[1..][i - 1 := row];
      HeldGains(rows[1..], i - 1, row, c);
    }
  }

  lemma {:induction false} GapsOfUpdate(hand: seq<int>, i: nat, v: int)
    requires i < |hand|
    ensures hand[i] != EMPTY_SLOT && v == EMPTY_SLOT ==> Gaps(hand[i := v]) == Gaps(hand) + 1
    ensures hand[i] == EMPTY_SLOT && v != EMPTY_SLOT ==> Gaps(hand[i := v]) == Gaps(hand) - 1
  {
    SlotOccurs(hand, i);
    assert multiset(hand[i := v]) == multiset(hand) - multiset{hand[i]} + multiset{v};
  }

  lemma {:induction false} NoGapsMeansFull(hand: seq<int>)
    ensures Gaps(hand) == 0 <==> IsFull(hand)
  {
    if k :| 0 <= k < |hand| && hand[k] == EMPTY_SLOT {
      SlotOccurs(hand, k);
    }
    if Gaps(hand) > 0 {
      assert EMPTY_SLOT in multiset(hand);
      assert EMPTY_SLOT in hand;
    }
  }

  /** Before receiving there is exactly one gap, so the slot search stops inside the hand. */
  lemma {:induction false} SearchStaysInside(hand: seq<int>)
    requires Gaps(hand) > 0
    ensures FirstEmpty(hand) < |hand|
  {
    NoGapsMeansFull(hand);
  }

  lemma {:induction false} PipeGains(pipe: seq<int>, c: int)
    requires c != EMPTY_SLOT && EMPTY_SLOT !in pipe
    ensures EMPTY_SLOT !in pipe + [c] && Cards(pipe + [c]) == Cards(pipe) + multiset{c}
  {}

  lemma {:induction false} PipeLoses(pipe: seq<int>)
    requires pipe != [] && EMPTY_SLOT !in pipe
    ensures EMPTY_SLOT !in pipe[1..] && pipe[0] != EMPTY_SLOT && Cards(pipe[1..]) + multiset{pipe[0]} == Cards(pipe)
  {
    assert pipe == [pipe[0]] + pipe[1..];
  }

  /** All the cards in play. */
  function InPlay(r: Ring): multiset<int> {
    Held(r.hands) + Held(r.pipes)
  }

  lemma {:induction false} SendKeepsCards(r: Ring, i: nat, slot: nat)
    requires Inv(r) && Enabled(r, Send(i, slot))
    ensures InPlay(Apply(r, Send(i, slot))) == InPlay(r)
  {
    var t, c := Apply(r, Send(i, slot)), r.hands[i][slot];
    assert PipeIsGood(r, i);
    CardsOfUpdate(r.hands[i], slot, EMPTY_SLOT);
    PipeGains(r.pipes[i], c);
    HeldLoses(r.hands, i, r.hands[i][slot := EMPTY_SLOT], c);
    HeldGains(r.pipes, i, r.pipes[i] + [c], c);
    Passes(Held(t.hands), Held(r.pipes), c);
  }

  lemma {:induction false} ReceiveKeepsCards(r: Ring, i: nat)
    requires Inv(r) && Enabled(r, Receive(i))
    ensures InPlay(Apply(r, Receive(i))) == InPlay(r)
  {
    var t, p := Apply(r, Receive(i)), Previous(i, |r.hands|);
    var c, slot := r.pipes[p][0], FirstEmpty(r.hands[i]);
    assert HandIsGood(r, i) && PipeIsGood(r, p);
    SearchStaysInside(r.hands[i]);
    PipeLoses(r.pipes[p]);
    CardsOfUpdate(r.hands[i], slot, c);
    HeldGains(r.hands, i, r.hands[i][slot := c], c);
    HeldLoses(r.pipes, p, r.pipes[p][1..], c);
    Passes(Held(r.hands), Held(t.pipes), c);
  }

  lemma Passes(a: multiset<int>, b: multiset<int>, c: int)
    ensures (a + multiset{c}) + b == a + (b + multiset{c})
  {}

  lemma {:induction false} SendKeepsHand(r: Ring, i: nat, slot: nat)
    requires Inv(r) && Enabled(r, Send(i, slot))
    ensures HandIsGood(Apply(r, Send(i, slot)), i) && PipeIsGood(Apply(r, Send(i, slot)), i)
  {
    assert HandIsGood(r, i) && PipeIsGood(r, i);
    GapsOfUpdate(r.hands[i], slot, EMPTY_SLOT);
  }

  lemma {:induction false} ReceiveKeepsHand(r: Ring, i: nat)
    requires Inv(r) && Enabled(r, Receive(i))
    ensures HandIsGood(Apply(r, Receive(i)), i) && PipeIsGood(Apply(r, Receive(i)), Previous(i, |r.hands|))
  {
    var p := Previous(i, |r.hands|);
    assert HandIsGood(r, i) && PipeIsGood(r, p);
    SearchStaysInside(r.hands[i]);
    PipeLoses(r.pipes[p]);
    GapsOfUpdate(r.hands[i], FirstEmpty(r.hands[i]), r.pipes[p][0]);
  }

  /** Cards in flight and waiting players come and go together. */
  lemma {:induction false} FlightChanges(pipes: seq<seq<int>>, p: nat, pipe: seq<int>, waiting: seq<bool>,
                                         i: nat, w: bool)
    requires p < |pipes| && i < |waiting| && Sum(Lengths(pipes)) == Sum(Bits(waiting))
    requires waiting[i] != w && |pipe| == |pipes[p]| + if w then 1 else -1
    ensures Sum(Lengths(pipes[p := pipe])) == Sum(Bits(waiting[i := w]))
  {
    SumOfUpdate(Lengths(pipes), p, |pipe|);
    SumOfUpdate(Bits(waiting), i, if w then 1 else 0);
    assert Lengths(pipes[p := pipe]) == Lengths(pipes)[p := |pipe|];
    assert Bits(waiting[i := w]) == Bits(waiting)[i := if w then 1 else 0];
  }

  lemma {:induction false} StepKeepsInv(r: Ring, a: Action)
    requires Inv(r) && Enabled(r, a)
    ensures Inv(Apply(r, a)) && InPlay(Apply(r, a)) == InPlay(r)
  {
    var t, n := Apply(r, a), |r.hands|;
    match a {
      case Send(i, slot) =>
        SendKeepsCards(r, i, slot);
        SendKeepsHand(r, i, slot);
        FlightChanges(r.pipes, i, r.pipes[i] + [r.hands[i][slot]], r.waiting, i, true);
      case Receive(i) =>
        ReceiveKeepsCards(r, i);
        ReceiveKeepsHand(r, i);
        FlightChanges(r.pipes, Previous(i, n), r.pipes[Previous(i, n)][1..], r.waiting, i, false);
      case Stop =>
    }
    forall k | 0 <= k < n
      ensures HandIsGood(t, k) && PipeIsGood(t, k)
    {
      assert HandIsGood(r, k) && PipeIsGood(r, k);
    }
  }

  lemma {:induction false} RunKeepsInv(r: Ring, run: seq<Action>)
    requires Inv(r) && Legal(r, run)
    ensures Inv(After(r, run)) && InPlay(After(r, run)) == InPlay(r)
    decreases |run|
  {
    if run != [] {
      StepKeepsInv(r, run[0]);
      RunKeepsInv(Apply(r, run[0]), run[1..]);
    }
  }

  /** The ring as `create_players` starts it: full hands, empty pipes, everybody about to send. */
  ghost predicate Initial(r: Ring) {
    && |r.hands| == |r.pipes| == |r.waiting| && |r.hands| > 0
    && (forall i :: 0 <= i < |r.hands| ==> r.hands[i] != [] && IsFull(r.hands[i]))
    && (forall i :: 0 <= i < |r.pipes| ==> r.pipes[i] == [])
    && (forall i :: 0 <= i < |r.waiting| ==> !r.waiting[i])
    && r.winners == [] && !r.over
  }

  lemma {:induction false} InitialInv(r: Ring)
    requires Initial(r)
    ensures Inv(r)
  {
    forall i | 0 <= i < |r.hands|
      ensures HandIsGood(r, i)
    {
      NoGapsMeansFull(r.hands[i]);
    }
    SumOfConstant(Lengths(r.pipes), 0);
    SumOfConstant(Bits(r.waiting), 0);
  }

  lemma {:induction false} EmptyRowsHoldNothing(rows: seq<seq<int>>)
    requires forall i :: 0 <= i < |rows| ==> rows[i] == []
    ensures Held(rows) == multiset{}
  {
    if rows != [] {
      EmptyRowsHoldNothing(rows[1..]);
    }
  }

  /**
   Conservation. With `left` the cards that stayed in the deck, in every state of every run the deck, the hands and the
   pipes together hold each of the 52 cards exactly once.
   */
  lemma {:induction false} EveryCardOnce(r: Ring, left: multiset<int>, run: seq<Action>)
    requires Initial(r) && Legal(r, run) && left + Held(r.hands) == multiset(Stock(DECK))
    ensures left + Held(After(r, run).hands) + Held(After(r, run).pipes) == multiset(Stock(DECK))
    ensures forall c :: (left + Held(After(r, run).hands) + Held(After(r, run).pipes))[c]
                     == if 1 <= c <= DECK then 1 else 0
  {
    InitialInv(r);
    RunKeepsInv(r, run);
    EmptyRowsHoldNothing(r.pipes);
    assert left + (Held(After(r, run).hands) + Held(After(r, run).pipes)) == left + Held(r.hands);
    forall c
      ensures multiset(Stock(DECK))[c] == if 1 <= c <= DECK then 1 else 0
    {
      OccursOnce(Stock(DECK), c);
      if 1 <= c <= DECK {
        assert Stock(DECK)[c - 1] == c;
        assert c in Stock(DECK);
      } else {
        assert c !in Stock(DECK);
      }
    }
  }

  /** A win is announced only by a player whose hand is full, of real cards, and all of one suit. */
  lemma {:induction false} WinsAreEarned(r: Ring, run: seq<Action>, a: Action)
    requires Initial(r) && Legal(r, run) && Enabled(After(r, run), a)
    ensures var s, t := After(r, run), Apply(After(r, run), a);
            t.winners != s.winners ==>
              a.Receive? && t.winners == s.winners + [a.i] && IsFull(t.hands[a.i]) && OneSuit(t.hands[a.i])
  {
    InitialInv(r);
    RunKeepsInv(r, run);
    var s := After(r, run);
    if a.Receive? {
      ReceiveKeepsHand(s, a.i);
      NoGapsMeansFull(Apply(s, a).hands[a.i]);
    }
  }
}
