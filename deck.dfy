/**
 * The Big Two deck: 52 cards built suit by suit, each suit in rank order.
 */
module Decks {
  import opened Cards

  /** The 52 cards in the order the deck is built: suit-major, then rank. */
  function StandardDeck(): seq<Card>
  {
    seq(52, k requires 0 <= k < 52 => Card(k / 13, k % 13))
  }

  /** Position 13 * i + j holds the card of suit i and rank j. */
  lemma DeckPosition(i: Suit, j: Rank)
    ensures 0 <= 13 * i + j < |StandardDeck()|
    ensures StandardDeck()[13 * i + j] == Card(i, j)
  {
    var k := 13 * i + j;
    assert k / 13 == i && k % 13 == j by {
      assert k == 13 * i + j && 0 <= j < 13;
    }
  }

  /** Every card of the game occurs in the deck exactly once. */
  lemma DeckHoldsEveryCardOnce(c: Card)
    ensures multiset(StandardDeck())[c] == 1
  {
    DeckPosition(c.suit, c.rank);
    DeckDistinct();
    DistinctIffCountsAtMostOne(StandardDeck());
    assert StandardDeck()[13 * c.suit + c.rank] in StandardDeck();
  }

  /** The deck holds 52 pairwise different cards. */
  lemma DeckDistinct()
    ensures |StandardDeck()| == 52
    ensures Distinct(StandardDeck())
  {
    var d := StandardDeck();
    forall i, j | 0 <= i < j < 52
      ensures d[i] != d[j]
    {
      assert i == 13 * (i / 13) + i % 13;
      assert j == 13 * (j / 13) + j % 13;
    }
  }

  /** The three of diamonds is the third card built, and no other position holds it. */
  lemma ThreeOfDiamondsOnce()
    ensures StandardDeck()[2] == ThreeOfDiamonds
    ensures forall k :: 0 <= k < 52 && k != 2 ==> StandardDeck()[k] != ThreeOfDiamonds
  {
    DeckDistinct();
  }

  class BigTwoDeck {
    var cards: seq<Card>

    /** A deck object before initialize; Deck's own constructor is not modelled. */
    constructor ()
      ensures cards == []
    {
      cards := [];
    }

    /** initialize: empty the deck, then add Card(i, j) for each suit i and each rank j. */
    method Initialize()
      modifies this
      ensures cards == StandardDeck()
    {
      cards := [];
      for i := 0 to 4
        invariant cards == StandardDeck()[..13 * i]
      {
        for j := 0 to 13
          invariant cards == StandardDeck()[..13 * i + j]
        {
          DeckPosition(i, j);
          assert StandardDeck()[..13 * i + j + 1] == StandardDeck()[..13 * i + j] + [Card(i, j)];
          cards := cards + [Card(i, j)];
        }
      }
    }
  }
}
