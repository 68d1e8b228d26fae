/**
 What a schedule makes the players do, told from their hands: which cards each discards and which turn up in its hand,
 who wins, and when the game is over.
 */
module ShipGameRecord {
  import opened Sequences
  import opened Dealing
  import opened ShipGame

  /** The card that player i discards in this step, if it does: what is in the slot. */
  function DiscardedNow(r: Ring, a: Action, i: nat): seq<int>
    requires |r.hands| == |r.pipes| == |r.waiting| && Enabled(r, a)
  {
    if a.Send? && a.i == i then [r.hands[i][a.slot]] else []
  }

  /** The card that turns up in player i's hand in this step, if one does: what is then in the slot that was empty. */
  function TurnedUpNow(r: Ring, a: Action, i: nat): seq<int>
    requires Inv(r) && Enabled(r, a)
  {
    if a != Receive(i) then []
    else
      StepKeepsInv(r, a);
      assert HandIsGood(r, i);
      SearchStaysInside(r.hands[i]);
      [Apply(r, a).hands[i][FirstEmpty(r.hands[i])]]
  }

  function Discarded(r: Ring, run: seq<Action>, i: nat): seq<int>
    requires |r.hands| == |r.pipes| == |r.waiting| && Legal(r, run)
    decreases |run|
  {
    if run == [] then [] else DiscardedNow(r, run[0], i) + Discarded(Apply(r, run[0]), run[1..], i)
  }

  function TurnedUp(r: Ring, run: seq<Action>, i: nat): seq<int>
    requires Inv(r) && Legal(r, run)
    decreases |run|
  {
    if run == [] then []
    else
      StepKeepsInv(r, run[0]);
      TurnedUpNow(r, run[0], i) + TurnedUp(Apply(r, run[0]), run[1..], i)
  }

  /** A pipe gains at its end what its writer discards, and loses at its front what turns up with its reader. */
  lemma {:induction false} PipePassesOn(r: Ring, a: Action, i: nat)
    requires Inv(r) && Enabled(r, a) && i < |r.hands|
    ensures var p := Previous(i, |r.hands|);
            r.pipes[p] + DiscardedNow(r, a, p) == TurnedUpNow(r, a, i) + Apply(r, a).pipes[p]
  {
    var p, t := Previous(i, |r.hands|), Apply(r, a);
    if a == Receive(i) {
      assert HandIsGood(r, i);
      SearchStaysInside(r.hands[i]);
      assert r.pipes[p] == [r.pipes[p][0]] + t.pipes[p];
    } else if !(a.Send? && a.i == p) {
      assert t.pipes[p] == r.pipes[p];
    }
  }

  lemma {:induction false} PipesPassOn(r: Ring, run: seq<Action>, i: nat)
    requires Inv(r) && Legal(r, run) && i < |r.hands|
    ensures var p := Previous(i, |r.hands|);
            r.pipes[p] + Discarded(r, run, p) == TurnedUp(r, run, i) + After(r, run).pipes[p]
    decreases |run|
  {
    if run != [] {
      var p, t := Previous(i, |r.hands|), Apply(r, run[0]);
      StepKeepsInv(r, run[0]);
      PipePassesOn(r, run[0], i);
      PipesPassOn(t, run[1..], i);
      PassOnTwice(r.pipes[p], DiscardedNow(r, run[0], p), TurnedUpNow(r, run[0], i), t.pipes[p],
                  Discarded(t, run[1..], p), TurnedUp(t, run[1..], i), After(r, run).pipes[p]);
    }
  }

  /**
   The cards that turn up in a player's hand are those that the player before it has discarded, in the same order, the
   ones still in the pipe excepted.
   */
  lemma {:induction false} CardsArriveInOrder(r: Ring, run: seq<Action>, i: nat)
    requires Initial(r) && Legal(r, run) && i < |r.hands|
    ensures Inv(r)
    ensures var p := Previous(i, |r.hands|);
            (p + 1) % |r.hands| == i && Discarded(r, run, p) == TurnedUp(r, run, i) + After(r, run).pipes[p]
  {
    InitialInv(r);
    ReadsFromBehind(i, |r.hands|);
    PipesPassOn(r, run, i);
    assert r.pipes[Previous(i, |r.hands|)] + Discarded(r, run, Previous(i, |r.hands|))
        == Discarded(r, run, Previous(i, |r.hands|));
  }

  /** The one slot that a step changes: of the player, the slot discarded or the one that was empty. */
  predicate IsTouched(r: Ring, a: Action, i: nat, slot: nat)
    requires i < |r.hands|
  {
    match a
    case Send(j, s) => j == i && s == slot
    case Receive(j) => j == i && slot == FirstEmpty(r.hands[i])
    case Stop => false
  }

  /** Discarding empties that slot, receiving fills it, and no other slot of any hand changes. */
  lemma {:induction false} OneSlotChanges(r: Ring, a: Action, i: nat, slot: nat)
    requires Inv(r) && Enabled(r, a) && i < |r.hands| && slot < |r.hands[i]|
    ensures var t := Apply(r, a);
            && |t.hands[i]| == |r.hands[i]|
            && (!IsTouched(r, a, i, slot) ==> t.hands[i][slot] == r.hands[i][slot])
            && (IsTouched(r, a, i, slot) && a.Send? ==> t.hands[i][slot] == EMPTY_SLOT)
            && (IsTouched(r, a, i, slot) && a.Receive? ==> t.hands[i][slot] != EMPTY_SLOT)
  {
    if a.Receive? {
      assert PipeIsGood(r, Previous(a.i, |r.hands|));
    }
  }

  /** Who has received the card that makes its hand one of a single suit, in order, told from the hands. */
  function Winning(r: Ring, run: seq<Action>): seq<nat>
    requires |r.hands| == |r.pipes| == |r.waiting| && Legal(r, run)
    decreases |run|
  {
    if run == [] then []
    else
      var t := Apply(r, run[0]);
      (if run[0].Receive? && OneSuit(t.hands[run[0].i]) then [run[0].i] else []) + Winning(t, run[1..])
  }

  /** A receipt is announced if and only if the hand is then of one suit; nothing else is ever announced. */
  lemma {:induction false} WinIsAnnouncedIff(r: Ring, run: seq<Action>, a: Action)
    requires Initial(r) && Legal(r, run) && Enabled(After(r, run), a)
    ensures var s, t := After(r, run), Apply(After(r, run), a);
            && (a.Receive? ==> (t.winners == s.winners + [a.i] <==> OneSuit(t.hands[a.i])))
            && (t.winners != s.winners ==> a.Receive? && t.winners == s.winners + [a.i])
  {
    var s := After(r, run);
    if a.Receive? {
      assert |s.winners + [a.i]| != |s.winners|;
    }
  }

  lemma {:induction false} WinnersGrow(r: Ring, run: seq<Action>)
    requires |r.hands| == |r.pipes| == |r.waiting| && Legal(r, run)
    ensures After(r, run).winners == r.winners + Winning(r, run)
    decreases |run|
  {
    if run != [] {
      WinnersGrow(Apply(r, run[0]), run[1..]);
    }
  }

  /** The announcements are the winning receipts, in order. */
  lemma {:induction false} EveryWinIsAnnounced(r: Ring, run: seq<Action>)
    requires Initial(r) && Legal(r, run)
    ensures After(r, run).winners == Winning(r, run)
  {
    WinnersGrow(r, run);
  }

  lemma {:induction false} OverByStop(r: Ring, run: seq<Action>)
    requires |r.hands| == |r.pipes| == |r.waiting| && Legal(r, run)
    ensures After(r, run).over <==> r.over || Stop in run
    decreases |run|
  {
    if run != [] {
      OverByStop(Apply(r, run[0]), run[1..]);
      assert run == [run[0]] + run[1..];
    }
  }

  lemma {:induction false} StopEnds(r: Ring, run: seq<Action>)
    requires |r.hands| == |r.pipes| == |r.waiting| && Legal(r, run) && !After(r, run).over
    requires After(r, run).winners != []
    ensures Legal(r, run + [Stop]) && After(r, run + [Stop]).over
    decreases |run|
  {
    if run == [] {
      assert [Stop][1..] == [] && [] + [Stop] == [Stop];
    } else {
      assert (run + [Stop])[1..] == run[1..] + [Stop];
      StopEnds(Apply(r, run[0]), run[1..]);
    }
  }

  /**
   When the game is over: exactly when the parent has stopped it. Until then it can be stopped at once exactly when some
   receipt has made a hand one of a single suit; and after that nobody plays on.
   */
  lemma {:induction false} OverIffWon(r: Ring, run: seq<Action>)
    requires Initial(r) && Legal(r, run)
    ensures var t := After(r, run);
            && (t.over <==> Stop in run) && (t.over ==> Winning(r, run) != [])
            && (!t.over ==> (Enabled(t, Stop) <==> Winning(r, run) != []))
            && (t.over ==> forall a :: !Enabled(t, a))
  {
    EveryWinIsAnnounced(r, run);
    OverByStop(r, run);
    OverHasWinner(r, run);
  }

  lemma {:induction false} OverHasWinner(r: Ring, run: seq<Action>)
    requires |r.hands| == |r.pipes| == |r.waiting| && Legal(r, run) && (r.over ==> r.winners != [])
    ensures After(r, run).over ==> After(r, run).winners != []
    decreases |run|
  {
    if run != [] {
      OverHasWinner(Apply(r, run[0]), run[1..]);
    }
  }

  /** Some run ends the game if and only if some run makes a hand one of a single suit. */
  lemma {:induction false} GameCanEndIff(r: Ring)
    requires Initial(r)
    ensures (exists run :: Legal(r, run) && After(r, run).over)
       <==> (exists run :: Legal(r, run) && Winning(r, run) != [])
  {
    forall run | Legal(r, run)
      ensures After(r, run).over ==> Winning(r, run) != []
    {
      OverIffWon(r, run);
    }
    if run :| Legal(r, run) && Winning(r, run) != [] {
      EveryWinIsAnnounced(r, run);
      if !After(r, run).over {
        StopEnds(r, run);
      }
    }
  }
}
