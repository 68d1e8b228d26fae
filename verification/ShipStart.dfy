/** How the game gets its start: the deck filled and shuffled, the hands dealt, the ring set up. */
module ShipStart {
  import opened Sequences
  import opened Shuffle
  import opened Dealing
  import opened ShipGame
  import opened ShipGameProgress
  import opened ShipTable

  /** In a shuffled deck every slot holds a card. */
  lemma {:induction false} DeckIsAllCards(deck: seq<int>, n: nat)
    requires multiset(deck) == multiset(Stock(n))
    ensures Cards(deck) == multiset(Stock(n)) && IsFull(deck)
  {
    assert EMPTY_SLOT !in Stock(n);
    assert multiset(Stock(n))[EMPTY_SLOT] == 0;
    forall i | 0 <= i < |deck|
      ensures deck[i] != EMPTY_SLOT
    {
      assert deck[i] in multiset(deck);
    }
  }

  method ShuffledDeck(draws: seq<nat>) returns (deck: array<int>)
    requires |draws| == DECK - 1
    ensures fresh(deck) && deck.Length == DECK
    ensures deck[..] == Exchanged(Stock(DECK), DECK - 1, Reduced(draws))
    ensures Cards(deck[..]) == multiset(Stock(DECK)) && IsFull(deck[..])
  {
    deck := new int[DECK];
    FillArray(deck);
    ShuffleInPlace(deck, draws);
    ExchangedIsAPermutation(Stock(DECK), DECK - 1, Reduced(draws));
    DeckIsAllCards(deck[..], DECK);
  }

  /** Zeroed memory for n hands of m cards. */
  method EmptyHands(n: nat, m: nat) returns (hands: seq<array<int>>)
    ensures |hands| == n
    ensures forall i :: 0 <= i < n ==> fresh(hands[i]) && hands[i].Length == m && IsBlank(hands[i][..])
    ensures forall i, j :: 0 <= i < j < n ==> hands[i] != hands[j]
  {
    hands := [];
    for k := 0 to n
      invariant |hands| == k
      invariant forall i :: 0 <= i < k ==> fresh(hands[i]) && hands[i].Length == m && IsBlank(hands[i][..])
      invariant forall i, j :: 0 <= i < j < k ==> hands[i] != hands[j]
    {
      var hand := new int[m](_ => EMPTY_SLOT);
      hands := hands + [hand];
    }
  }

  /** Before the first card is dealt. */
  lemma {:induction false} NothingDealt(deck: seq<int>, rows: seq<seq<int>>, m: nat)
    requires forall j :: 0 <= j < |rows| ==> IsBlank(rows[j]) && |rows[j]| == m
    ensures HandsDealt(deck, rows, 0, m, Cards(deck))
  {
    assert rows[..0] == [];
  }

  /** After the last: the ring can start, and hands and deck hold what the deck held. */
  lemma {:induction false} AllDealt(deck: seq<int>, rows: seq<seq<int>>, m: nat, all: multiset<int>)
    requires HandsDealt(deck, rows, |rows|, m, all) && rows != []
    requires forall j :: 0 <= j < |rows| ==> rows[j] != []
    ensures Initial(Ring(rows, seq(|rows|, _ => []), seq(|rows|, _ => false), [], false))
    ensures Cards(deck) + Held(rows) == all
  {
    assert rows[..|rows|] == rows;
  }

  /** Draws from a full deck: m for each player, each slot at most once. */
  ghost predicate AllPicked(picks: seq<seq<nat>>, m: nat) {
    && (forall i :: 0 <= i < |picks| ==> |picks[i]| == m)
    && (forall i, k :: 0 <= i < |picks| && 0 <= k < m ==> picks[i][k] < DECK)
    && (forall i, k, l :: 0 <= i < |picks| && 0 <= k < l < m ==> picks[i][k] != picks[i][l])
    && (forall i, j, k :: 0 <= i < j < |picks| && 0 <= k < m ==> picks[j][k] !in picks[i])
  }

  /**
   From the deck to the ring, for any number of players and any size of hand that the deck allows: everybody has a full
   hand, of the cards that its draws found in the shuffled deck, and the cards on the hands and those left in the deck
   are the 52 cards.
   */
  method StartGame(n: nat, m: nat, draws: seq<nat>, picks: seq<seq<nat>>) returns (table: Table, deck: array<int>)
    requires 0 < n && 0 < m && |draws| == DECK - 1
    requires |picks| == n && AllPicked(picks, m)
    ensures fresh(table) && table.Valid() && fresh(table.hands) && fresh(table.waiting)
    ensures fresh(deck) && deck !in table.hands && |table.hands| == n
    ensures forall i :: 0 <= i < n ==> table.hands[i].Length == m
    ensures Initial(table.State())
    ensures HaveFound(Exchanged(Stock(DECK), DECK - 1, Reduced(draws)), table.State().hands, picks, n)
    ensures Cards(deck[..]) + Held(table.State().hands) == multiset(Stock(DECK))
  {
    deck := ShuffledDeck(draws);
    var hands := EmptyHands(n, m);
    NothingDealt(deck[..], Contents(hands), m);
    DealHands(deck, hands, picks, m);
    AllDealt(deck[..], Contents(hands), m, multiset(Stock(DECK)));
    table := new Table(hands);
  }

  /** However the game goes on from there, deck, hands and pipes hold each of the 52 cards exactly once. */
  method PlayOut(table: Table, deck: array<int>, schedule: seq<Action>)
    requires table.Valid() && Initial(table.State()) && deck !in table.hands
    requires Cards(deck[..]) + Held(table.State().hands) == multiset(Stock(DECK))
    requires Legal(table.State(), schedule)
    modifies table, table.hands, table.waiting
    ensures table.Valid() && table.State() == After(old(table.State()), schedule)
    ensures forall c :: (Cards(deck[..]) + Held(table.State().hands) + Held(table.State().pipes))[c]
                     == if 1 <= c <= DECK then 1 else 0
  {
    ghost var r := table.State();
    InitialInv(r);
    table.Play(schedule);
    EveryCardOnce(r, Cards(deck[..]), schedule);
  }
}
