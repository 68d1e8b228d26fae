/** The ring played in place: hands are arrays, and an incoming card goes where the slot search stops. */
module ShipTable {
  import opened Dealing
  import opened ShipGame
  import opened ShipGameProgress

  /** The search has no bound of its own: it relies on there being a gap. */
  method FindGap(hand: array<int>) returns (i: nat)
    requires FirstEmpty(hand[..]) < hand.Length
    ensures i == FirstEmpty(hand[..])
  {
    i := 0;
    while hand[i] != EMPTY_SLOT
      invariant i <= FirstEmpty(hand[..])
      decreases hand.Length - i
    {
      i := i + 1;
    }
    assert hand[..][i] == EMPTY_SLOT;
  }

  /** A card comes in, and the hand is looked at. */
  method PutIn(hand: array<int>, card: int) returns (winning: bool)
    requires FirstEmpty(hand[..]) < hand.Length
    modifies hand
    ensures hand[..] == Filled(old(hand[..]), card) && winning == OneSuit(hand[..])
  {
    var slot := FindGap(hand);
    hand[slot] := card;
    winning := IsWinning(hand);
  }

  class Table {
    const hands: seq<array<int>>
    const waiting: array<bool>
    var pipes: seq<seq<int>>
    var winners: seq<nat>
    var over: bool

    ghost function State(): (r: Ring)
      reads this, hands, waiting
    {
      Ring(Contents(hands), pipes, waiting[..], winners, over)
    }

    ghost predicate Valid()
      reads this, hands, waiting
    {
      && |hands| == |pipes| == waiting.Length
      && (forall i, j :: 0 <= i < j < |hands| ==> hands[i] != hands[j])
    }

    /** The hands as dealt, pipes empty, everybody about to send. */
    constructor (hands: seq<array<int>>)
      requires forall i, j :: 0 <= i < j < |hands| ==> hands[i] != hands[j]
      ensures Valid() && fresh(waiting) && this.hands == hands
      ensures State() == Ring(Contents(hands), seq(|hands|, _ => []), seq(|hands|, _ => false), [], false)
    {
      this.hands := hands;
      waiting := new bool[|hands|](_ => false);
      pipes, winners, over := seq(|hands|, _ => []), [], false;
      new;
      assert waiting[..] == seq(|hands|, _ => false);
    }

    method Discard(i: nat, slot: nat)
      requires Valid() && Enabled(State(), Send(i, slot))
      modifies this, hands[i], waiting
      ensures Valid() && State() == Apply(old(State()), Send(i, slot))
    {
      var card := hands[i][slot];
      hands[i][slot] := EMPTY_SLOT;
      pipes := pipes[i := pipes[i] + [card]];
      waiting[i] := true;
      assert Contents(hands) == old(Contents(hands))[i := old(Contents(hands))[i][slot := EMPTY_SLOT]];
    }

    method Take(i: nat)
      requires Valid() && Enabled(State(), Receive(i)) && FirstEmpty(hands[i][..]) < hands[i].Length
      modifies this, hands[i], waiting
      ensures Valid() && State() == Apply(old(State()), Receive(i))
    {
      var p := Previous(i, |hands|);
      var card := pipes[p][0];
      pipes := pipes[p := pipes[p][1..]];
      var winning := PutIn(hands[i], card);
      waiting[i] := false;
      assert Contents(hands) == old(Contents(hands))[i := hands[i][..]];
      if winning {
        winners := winners + [i];
      }
    }

    /** Any step, in place; the search of a receiver finds a gap because the invariant holds. */
    method Perform(a: Action)
      requires Valid() && Inv(State()) && Enabled(State(), a)
      modifies this, hands, waiting
      ensures Valid() && State() == Apply(old(State()), a)
    {
      match a {
        case Send(i, slot) =>
          Discard(i, slot);
        case Receive(i) =>
          assert HandIsGood(State(), i);
          SearchStaysInside(hands[i][..]);
          Take(i);
        case Stop =>
          over := true;
      }
    }

    /** A whole game under a given schedule. */
    method Play(schedule: seq<Action>)
      requires Valid() && Inv(State()) && Legal(State(), schedule)
      modifies this, hands, waiting
      ensures Valid() && State() == After(old(State()), schedule)
    {
      ghost var start := State();
      for k := 0 to |schedule|
        invariant Valid() && Inv(State()) && Legal(State(), schedule[k..])
        invariant After(State(), schedule[k..]) == After(start, schedule)
      {
        StepKeepsInv(State(), schedule[k]);
        Perform(schedule[k]);
        assert schedule[k..][1..] == schedule[k + 1..];
      }
    }
  }
}
