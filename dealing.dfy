/**
 * The deal at the start of a game: card i of the deck goes to seat i mod 4, each seat
 * then sorts its cards, and the seat that received the three of diamonds moves first.
 */
module Dealing {
  import opened Cards
  import opened Decks
  import opened Rules

  /** The cards seat `p` holds once the first `n` cards of the deck are dealt, in order. */
  function Dealt(deck: seq<Card>, n: nat, p: int): seq<Card>
    requires n <= |deck|
  {
    if n == 0 then []
    else Dealt(deck, n - 1, p) + (if (n - 1) % NumPlayers == p then [deck[n - 1]] else [])
  }

  /** Seat of the three of diamonds among the first `n` cards dealt, 0 when it is not there. */
  function D3Holder(deck: seq<Card>, n: nat): int
    requires n <= |deck|
  {
    if n == 0 then 0
    else if deck[n - 1].suit == 0 && deck[n - 1].rank == 2 then (n - 1) % NumPlayers
    else D3Holder(deck, n - 1)
  }

  /** The game right after start: sorted dealt hands, an empty table, the 3♦ holder to move. */
  function StartState(deck: seq<Card>): Game
    requires |deck| >= 52
  {
    Game(seq(NumPlayers, p requires 0 <= p < NumPlayers => SortCards(Dealt(deck, 52, p))),
         [], D3Holder(deck, 52))
  }

  /** Seat p gets one card in four, starting with card p. */
  lemma {:induction false} DealtSize(deck: seq<Card>, n: nat, p: int)
    requires n <= |deck| && 0 <= p < NumPlayers
    ensures |Dealt(deck, n, p)| == (n + 3 - p) / 4
  {
    if n > 0 {
      DealtSize(deck, n - 1, p);
    }
  }

  /** The k-th card seat p receives is card 4 * k + p of the deck. */
  lemma {:induction false} DealtAt(deck: seq<Card>, n: nat, p: int, k: int)
    requires n <= |deck| && 0 <= p < NumPlayers
    requires 0 <= k < |Dealt(deck, n, p)|
    ensures 4 * k + p < n && Dealt(deck, n, p)[k] == deck[4 * k + p]
  {
    DealtSize(deck, n, p);
    var prev := Dealt(deck, n - 1, p);
    DealtSize(deck, n - 1, p);
    if k < |prev| {
      DealtAt(deck, n - 1, p, k);
    } else {
      assert (n - 1) % NumPlayers == p;
      assert n - 1 == 4 * k + p;
    }
  }

  /** The cards of exactly four players. */
  lemma PlayersCardsOfFour(ps: seq<seq<Card>>)
    requires |ps| == 4
    ensures PlayersCards(ps) == multiset(ps[0]) + multiset(ps[1]) + multiset(ps[2]) + multiset(ps[3])
  {
    var p3, p2, p1 := ps[..3], ps[..3][..2], ps[..3][..2][..1];
    assert p3[2] == ps[2] && p2[1] == ps[1] && p1[0] == ps[0];
    assert p1[..0] == [];
    assert PlayersCards(p1) == multiset(ps[0]);
    assert PlayersCards(p2) == PlayersCards(p1) + multiset(ps[1]);
    assert PlayersCards(p3) == PlayersCards(p2) + multiset(ps[2]);
  }

  /** Dealing card n - 1 adds it to seat (n - 1) mod 4 and to no other seat. */
  lemma DealOne(deck: seq<Card>, n: nat, p: int, x: Card)
    requires 0 < n <= |deck|
    ensures multiset(Dealt(deck, n, p))[x] ==
      multiset(Dealt(deck, n - 1, p))[x] + if (n - 1) % NumPlayers == p && deck[n - 1] == x then 1 else 0
  {
  }

  /** The cards of the four seats together. */
  function AllDealt(deck: seq<Card>, n: nat): multiset<Card>
    requires n <= |deck|
  {
    multiset(Dealt(deck, n, 0)) + multiset(Dealt(deck, n, 1)) +
    multiset(Dealt(deck, n, 2)) + multiset(Dealt(deck, n, 3))
  }

  /** Dealing card n - 1 adds one copy of it to the seats together. */
  lemma DealStepAt(deck: seq<Card>, n: nat, x: Card)
    requires 0 < n <= |deck|
    ensures AllDealt(deck, n)[x] == AllDealt(deck, n - 1)[x] + if deck[n - 1] == x then 1 else 0
  {
    var q := (n - 1) % NumPlayers;
    assert 0 <= q < NumPlayers;
    DealOne(deck, n, 0, x);
    DealOne(deck, n, 1, x);
    DealOne(deck, n, 2, x);
    DealOne(deck, n, 3, x);
  }

  /** Dealing hands out the first n cards of the deck, no more and no fewer. */
  lemma DealConserves(deck: seq<Card>, n: nat)
    requires n <= |deck|
    ensures AllDealt(deck, n) == multiset(deck[..n])
  {
    forall x
      ensures AllDealt(deck, n)[x] == multiset(deck[..n])[x]
    {
      DealConservesAt(deck, n, x);
    }
  }

  /** The seats together hold as many copies of x as the first n cards of the deck. */
  lemma {:induction false} DealConservesAt(deck: seq<Card>, n: nat, x: Card)
    requires n <= |deck|
    ensures AllDealt(deck, n)[x] == multiset(deck[..n])[x]
  {
    if n > 0 {
      var k: nat := n - 1;
      DealConservesAt(deck, k, x);
      DealStepAt(deck, n, x);
      PrefixCountStep(deck, k, n, x);
    }
  }

  /** Card k of the deck adds one copy of itself to the prefix of length k + 1. */
  lemma PrefixCountStep(deck: seq<Card>, k: nat, n: nat, x: Card)
    requires n == k + 1 <= |deck|
    ensures multiset(deck[..n])[x] == multiset(deck[..k])[x] + if deck[k] == x then 1 else 0
  {
    assert deck[..n] == deck[..k] + [deck[k]];
  }

  /** The seat chosen to open holds the three of diamonds whenever it was dealt. */
  lemma {:induction false} D3HolderHoldsIt(deck: seq<Card>, n: nat)
    requires n <= |deck|
    ensures 0 <= D3Holder(deck, n) < NumPlayers
    ensures ThreeOfDiamonds in deck[..n] ==> ThreeOfDiamonds in Dealt(deck, n, D3Holder(deck, n))
    ensures ThreeOfDiamonds !in deck[..n] ==> D3Holder(deck, n) == 0
  {
    if n > 0 {
      D3HolderHoldsIt(deck, n - 1);
      assert deck[..n] == deck[..n - 1] + [deck[n - 1]];
      var p := D3Holder(deck, n);
      if deck[n - 1] != ThreeOfDiamonds && ThreeOfDiamonds in deck[..n] {
        assert ThreeOfDiamonds in deck[..n - 1];
        DealtGrows(deck, n, p);
      }
    }
  }

  /** Dealing one more card never takes a card away from a seat. */
  lemma DealtGrows(deck: seq<Card>, n: nat, p: int)
    requires 0 < n <= |deck|
    ensures forall c :: c in Dealt(deck, n - 1, p) ==> c in Dealt(deck, n, p)
  {
  }

  /** After the deal and the sort, every seat holds 13 cards in game order. */
  lemma StartHandsSorted(deck: seq<Card>)
    requires |deck| >= 52
    ensures WellFormed(StartState(deck)) && StartState(deck).table == []
    ensures forall p :: 0 <= p < NumPlayers ==>
      |StartState(deck).players[p]| == 13 && Sorted(StartState(deck).players[p])
  {
    var g := StartState(deck);
    D3HolderHoldsIt(deck, 52);
    forall p | 0 <= p < NumPlayers
      ensures |g.players[p]| == 13
    {
      DealtSize(deck, 52, p);
    }
  }

  /** The 52 dealt cards are all in the players' hands and nowhere else. */
  lemma StartHoldsDealtCards(deck: seq<Card>)
    requires |deck| >= 52
    ensures TotalCards(StartState(deck)) == multiset(deck[..52])
  {
    var g := StartState(deck);
    PlayersCardsOfFour(g.players);
    DealConserves(deck, 52);
    assert TableCards(g.table) == multiset{};
  }

  /** The seat to move holds the three of diamonds if it was dealt, and is seat 0 otherwise. */
  lemma StartSeatHoldsThreeOfDiamonds(deck: seq<Card>)
    requires |deck| >= 52
    ensures 0 <= StartState(deck).current < NumPlayers
    ensures ThreeOfDiamonds in deck[..52] ==>
      ThreeOfDiamonds in StartState(deck).players[StartState(deck).current]
    ensures ThreeOfDiamonds !in deck[..52] ==> StartState(deck).current == 0
  {
    var g := StartState(deck);
    D3HolderHoldsIt(deck, 52);
    var holder := D3Holder(deck, 52);
    SameMembers(Dealt(deck, 52, holder), g.players[holder]);
  }

  /** Started from a permutation of the full deck, the game satisfies the invariant. */
  lemma StartEstablishesInv(deck: seq<Card>)
    requires |deck| >= 52 && multiset(deck[..52]) == multiset(StandardDeck())
    ensures Inv(StartState(deck))
  {
    StartHandsSorted(deck);
    StartHoldsDealtCards(deck);
  }

  /** With the deck as initialize builds it, the three of diamonds is card 2, so seat 2 opens. */
  lemma UnshuffledDeckOpensAtSeatTwo()
    ensures StartState(StandardDeck()).current == 2
  {
    var d := StandardDeck();
    ThreeOfDiamondsOnce();
    D3HolderAfterLast(d, 52);
  }

  /** Past the only position of the three of diamonds, the holder stays seat 2. */
  lemma {:induction false} D3HolderAfterLast(d: seq<Card>, n: nat)
    requires d == StandardDeck() && 3 <= n <= 52
    ensures D3Holder(d, n) == 2
  {
    ThreeOfDiamondsOnce();
    if n > 3 {
      D3HolderAfterLast(d, n - 1);
    }
  }
}
