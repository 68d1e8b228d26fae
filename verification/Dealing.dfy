/** Dealing the hands of "My ship sails" from the deck, and recognising a winning hand. */
module Dealing {

  const DECK := 52
  const EMPTY_SLOT := 0
  const SUITS := 4

  /** The cards in a row of slots; a taken or empty slot holds 0. */
  function Cards(slots: seq<int>): multiset<int> {
    multiset(slots)[EMPTY_SLOT := 0]
  }

  predicate IsFull(hand: seq<int>) {
    forall i :: 0 <= i < |hand| ==> hand[i] != EMPTY_SLOT
  }

  predicate IsBlank(hand: seq<int>) {
    forall i :: 0 <= i < |hand| ==> hand[i] == EMPTY_SLOT
  }

  predicate OneSuit(hand: seq<int>) {
    forall i, j :: 0 <= i < j < |hand| ==> hand[i] % SUITS == hand[j] % SUITS
  }

  lemma {:induction false} SlotOccurs(slots: seq<int>, i: nat)
    requires i < |slots|
    ensures multiset(slots)[slots[i]] >= 1
  {
    assert slots[i] in multiset(slots);
  }

  /** Putting v in a slot exchanges its old content for v. */
  lemma {:induction false} CardsOfUpdate(slots: seq<int>, i: nat, v: int)
    requires i < |slots|
    ensures slots[i] != EMPTY_SLOT && v == EMPTY_SLOT ==> Cards(slots[i := v]) + multiset{slots[i]} == Cards(slots)
    ensures slots[i] == EMPTY_SLOT && v != EMPTY_SLOT ==> Cards(slots[i := v]) == Cards(slots) + multiset{v}
  {
    SlotOccurs(slots, i);
    assert multiset(slots[i := v]) == multiset(slots) - multiset{slots[i]} + multiset{v};
  }

  lemma {:induction false} NoCards(slots: seq<int>)
    requires forall k :: 0 <= k < |slots| ==> slots[k] == EMPTY_SLOT
    ensures Cards(slots) == multiset{}
  {
    forall c
      ensures Cards(slots)[c] == 0
    {
      if c in multiset(slots) {
        assert c in slots;
      }
    }
  }

  /** The slots of the deck that are drawn and found to hold a card: none can be found twice. */
  predicate FoundCards(deck: seq<int>, picks: seq<nat>) {
    && (forall i :: 0 <= i < |picks| ==> picks[i] < |deck| && deck[picks[i]] != EMPTY_SLOT)
    && (forall i, j :: 0 <= i < j < |picks| ==> picks[i] != picks[j])
  }

  /** After i cards: they fill the first i slots of the hand, and together with the deck they are all there were. */
  ghost predicate Dealt(deck: seq<int>, hand: seq<int>, i: nat, all: multiset<int>) {
    && i <= |hand| && |Cards(deck)| == |all| - i
    && (forall k :: 0 <= k < i ==> hand[k] != EMPTY_SLOT)
    && (forall k :: i <= k < |hand| ==> hand[k] == EMPTY_SLOT)
    && Cards(deck) + Cards(hand) == all
  }

  /** Moving one card from the deck to the next slot. */
  lemma {:induction false} OneCardMoves(deck: seq<int>, r: nat, hand: seq<int>, i: nat, all: multiset<int>)
    requires Dealt(deck, hand, i, all) && i < |hand| && r < |deck| && deck[r] != EMPTY_SLOT
    ensures Dealt(deck[r := EMPTY_SLOT], hand[i := deck[r]], i + 1, all)
  {
    CardsOfUpdate(deck, r, EMPTY_SLOT);
    CardsOfUpdate(hand, i, deck[r]);
  }

  /** The cards found, in order. */
  function HandOf(deck: seq<int>, picks: seq<nat>): (hand: seq<int>)
    requires FoundCards(deck, picks)
    ensures |hand| == |picks| && forall k :: 0 <= k < |hand| ==> hand[k] == deck[picks[k]]
  {
    seq(|picks|, k requires 0 <= k < |picks| => deck[picks[k]])
  }

  /** The deck without them: their slots are marked as taken, and no others. */
  function Emptied(deck: seq<int>, picks: seq<nat>): (left: seq<int>)
    ensures |left| == |deck|
    ensures forall k :: 0 <= k < |left| ==> left[k] == if k in picks then EMPTY_SLOT else deck[k]
  {
    seq(|deck|, k requires 0 <= k < |deck| => if k in picks then EMPTY_SLOT else deck[k])
  }

  /** The deck and the hand after the first i of the picks. */
  ghost predicate Picked(was: seq<int>, deck: seq<int>, hand: seq<int>, picks: seq<nat>, i: nat)
    requires |was| == |deck| && i <= |picks| == |hand| && FoundCards(was, picks)
  {
    && (forall k :: 0 <= k < |deck| ==> deck[k] == if k in picks[..i] then EMPTY_SLOT else was[k])
    && (forall k :: 0 <= k < i ==> hand[k] == was[picks[k]])
  }

  lemma {:induction false} OnePickMore(was: seq<int>, deck: seq<int>, hand: seq<int>, picks: seq<nat>, i: nat)
    requires |was| == |deck| && i < |picks| == |hand| && FoundCards(was, picks)
    requires Picked(was, deck, hand, picks, i)
    ensures deck[picks[i]] == was[picks[i]]
    ensures Picked(was, deck[picks[i] := EMPTY_SLOT], hand[i := deck[picks[i]]], picks, i + 1)
  {
    assert picks[..i + 1] == picks[..i] + [picks[i]];
    assert picks[i] !in picks[..i];
  }

  /**
   The draws that miss are left out: `picks` are the slots at which a card turned up, in order. The hand gets their
   cards, the deck loses them and no others, and every card is dealt once.
   */
  method DealRandomCards(wholeDeck: array<int>, playerCards: array<int>, picks: seq<nat>)
    requires wholeDeck != playerCards && |picks| == playerCards.Length && FoundCards(wholeDeck[..], picks)
    requires IsBlank(playerCards[..])
    modifies wholeDeck, playerCards
    ensures playerCards[..] == HandOf(old(wholeDeck[..]), picks)
    ensures wholeDeck[..] == Emptied(old(wholeDeck[..]), picks)
    ensures Dealt(wholeDeck[..], playerCards[..], playerCards.Length, old(Cards(wholeDeck[..])))
  {
    ghost var was, all := wholeDeck[..], Cards(wholeDeck[..]);
    NoCards(playerCards[..]);
    var i := 0;
    while i < playerCards.Length
      invariant 0 <= i <= playerCards.Length
      invariant Picked(was, wholeDeck[..], playerCards[..], picks, i)
      invariant Dealt(wholeDeck[..], playerCards[..], i, all)
    {
      ghost var deck, hand := wholeDeck[..], playerCards[..];
      var randIdx := picks[i];
      OnePickMore(was, deck, hand, picks, i);
      OneCardMoves(deck, randIdx, hand, i, all);
      playerCards[i] := wholeDeck[randIdx];
      wholeDeck[randIdx] := EMPTY_SLOT;
      assert wholeDeck[..] == deck[randIdx := EMPTY_SLOT];
      assert playerCards[..] == hand[i := deck[randIdx]];
      i := i + 1;
    }
    assert picks[..i] == picks;
    assert wholeDeck[..] == Emptied(was, picks) && playerCards[..] == HandOf(was, picks);
  }

  /** Comparing neighbours is enough to know that all cards are of one suit. */
  method IsWinning(cards: array<int>) returns (winning: bool)
    ensures winning <==> OneSuit(cards[..])
  {
    var i := 0;
    while i < cards.Length - 1
      invariant cards.Length > 0 ==> 0 <= i < cards.Length
      invariant forall j, k :: 0 <= j < k <= i && k < cards.Length ==> cards[j] % SUITS == cards[k] % SUITS
    {
      if cards[i] % SUITS != cards[i + 1] % SUITS {
        assert cards[..][i] % SUITS != cards[..][i + 1] % SUITS;
        return false;
      }
      i := i + 1;
    }
    return true;
  }
}
