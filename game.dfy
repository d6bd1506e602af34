/**
 * The BigTwo game object: the players' cards, the hands on the table and the seat to
 * move, updated in place by start and checkMove. Each method is proved to produce the
 * state the transition functions of modules Dealing and Rules describe.
 */
module Games {
  import opened Wrappers
  import opened Cards
  import opened Hands
  import opened Decks
  import opened Rules
  import opened Dealing

  class BigTwo {
    /** The cards of each of the four players, by seat. */
    var playerHands: seq<seq<Card>>
    /** Hands played so far, the latest last. */
    var handsOnTable: seq<Hand>
    var currentPlayerIdx: int

    /** The game as a value. */
    function State(): Game
      reads this
    {
      Game(playerHands, handsOnTable, currentPlayerIdx)
    }

    /** Four players without cards and an empty table; seat 0 is current. */
    constructor ()
      ensures State() == Game([[], [], [], []], [], 0)
    {
      playerHands := [[], [], [], []];
      handsOnTable := [];
      currentPlayerIdx := 0;
    }

    /** endOfGame. */
    predicate EndOfGame()
      reads this
      requires WellFormed(State())
    {
      Rules.EndOfGame(State())
    }

    /** Next seat, unless the player to move has run out of cards. */
    method NextPlayer()
      requires WellFormed(State())
      modifies this
      ensures State() == Advance(old(State()))
    {
      if !EndOfGame() {
        currentPlayerIdx := (currentPlayerIdx + 1) % NumPlayers;
      }
    }

    /** Add the hand to the table, take its cards from the player and pass the turn on. */
    method Accept(playerIdx: int, hand: Hand)
      requires WellFormed(State()) && 0 <= playerIdx < NumPlayers
      modifies this
      ensures State() == Advance(Place(old(State()), playerIdx, hand))
    {
      handsOnTable := handsOnTable + [hand];
      playerHands := playerHands[playerIdx := RemoveCards(playerHands[playerIdx], hand.cards)];
      NextPlayer();
    }

    /**
     * checkMove: compose the selected cards into a hand and accept it, accept a pass,
     * or reject the move and leave everything as it was.
     */
    method CheckMove(playerIdx: int, cardIdx: Option<seq<int>>)
      requires WellFormed(State()) && playerIdx == currentPlayerIdx
      requires SelectionOk(playerHands[playerIdx], cardIdx)
      modifies this
      ensures State() == Step(old(State()), playerIdx, cardIdx)
    {
      var player := playerHands[playerIdx];
      var clPlay := Play(player, cardIdx);
      var currentHand := ComposeHand(playerIdx, clPlay);
      if |handsOnTable| == 0 {
        if currentHand.Some? && ThreeOfDiamonds in currentHand.value.cards {
          Accept(playerIdx, currentHand.value);
        }
      } else {
        var lastHandOnTable := handsOnTable[|handsOnTable| - 1];
        if lastHandOnTable.owner == currentPlayerIdx {
          if currentHand.Some? {
            Accept(playerIdx, currentHand.value);
          }
        } else if clPlay.None? {
          NextPlayer();
        } else if currentHand.Some? && Beats(currentHand.value, lastHandOnTable) {
          Accept(playerIdx, currentHand.value);
        }
      }
    }

    /** The dealing loop of start: card i goes to seat i mod 4; the 3♦'s seat is noted. */
    method DealFrom(deck: BigTwoDeck) returns (d3PlayerIndex: int)
      requires |deck.cards| >= 52
      modifies this
      ensures |playerHands| == NumPlayers
      ensures forall p :: 0 <= p < NumPlayers ==> playerHands[p] == Dealt(deck.cards, 52, p)
      ensures d3PlayerIndex == D3Holder(deck.cards, 52)
      ensures handsOnTable == old(handsOnTable) && currentPlayerIdx == old(currentPlayerIdx)
    {
      playerHands := [[], [], [], []];
      d3PlayerIndex := 0;
      var i := 0;
      while i < 52
        invariant 0 <= i <= 52
        invariant |playerHands| == NumPlayers
        invariant forall p :: 0 <= p < NumPlayers ==> playerHands[p] == Dealt(deck.cards, i, p)
        invariant d3PlayerIndex == D3Holder(deck.cards, i)
        invariant handsOnTable == old(handsOnTable) && currentPlayerIdx == old(currentPlayerIdx)
      {
        var card := deck.cards[i];
        var seat := i % NumPlayers;
        playerHands := playerHands[seat := playerHands[seat] + [card]];
        if card.suit == 0 && card.rank == 2 {
          d3PlayerIndex := seat;
        }
        i := i + 1;
      }
    }

    /** The sorting loop of start: every player sorts their cards. */
    method SortHands()
      requires |playerHands| == NumPlayers
      modifies this
      ensures |playerHands| == NumPlayers
      ensures forall p :: 0 <= p < NumPlayers ==> playerHands[p] == SortCards(old(playerHands)[p])
      ensures handsOnTable == old(handsOnTable) && currentPlayerIdx == old(currentPlayerIdx)
    {
      for p := 0 to NumPlayers
        invariant |playerHands| == NumPlayers
        invariant forall q :: 0 <= q < p ==> playerHands[q] == SortCards(old(playerHands)[q])
        invariant forall q :: p <= q < NumPlayers ==> playerHands[q] == old(playerHands)[q]
        invariant handsOnTable == old(handsOnTable) && currentPlayerIdx == old(currentPlayerIdx)
      {
        playerHands := playerHands[p := SortCards(playerHands[p])];
      }
    }

    /**
     * start: empty every hand and the table, deal card i to seat i mod 4 while noting
     * who receives the three of diamonds, sort every hand, and give that seat the turn.
     */
    method Start(deck: BigTwoDeck)
      requires |deck.cards| >= 52
      modifies this
      ensures State() == StartState(deck.cards)
    {
      handsOnTable := [];
      var d3PlayerIndex := DealFrom(deck);
      SortHands();
      currentPlayerIdx := d3PlayerIndex;
      assert playerHands == StartState(deck.cards).players;
    }
  }
}
