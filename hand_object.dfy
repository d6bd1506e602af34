/**
 * The Hand object of the source: a card list owned by a player whose isValid and
 * getTopCard sort the list in place before reading it. Each method is proved against
 * the value model of module Hands.
 */
module HandObjects {
  import opened Wrappers
  import opened Cards
  import opened Hands
  import HandProperties

  /** The cards of a list that may hold null entries, nulls dropped, order kept. */
  function NonNull(input: seq<Option<Card>>): seq<Card>
  {
    if input == [] then []
    else
      var last := input[|input| - 1];
      NonNull(input[..|input| - 1]) + (if last.Some? then [last.value] else [])
  }

  /**
   * The Hand constructor keeps exactly the non-null input cards: a card is kept iff it
   * occurs in the input, nothing is added, and a list without nulls is copied as is.
   */
  lemma {:induction false} NonNullKeepsCards(input: seq<Option<Card>>)
    ensures |NonNull(input)| <= |input|
    ensures forall c :: c in NonNull(input) <==> Some(c) in input
    ensures (forall i :: 0 <= i < |input| ==> input[i].Some?) ==>
      |NonNull(input)| == |input| && forall i :: 0 <= i < |input| ==> NonNull(input)[i] == input[i].value
  {
    if input != [] {
      var init := input[..|input| - 1];
      NonNullKeepsCards(init);
      assert input == init + [input[|input| - 1]];
      forall c
        ensures c in NonNull(input) <==> Some(c) in input
      {
        assert Some(c) in input <==> Some(c) in init || Some(c) == input[|input| - 1];
      }
    }
  }

  /** Reordering a hand's cards changes neither its validity, its size nor its top card. */
  lemma SameCardsSameVerdict(h: Hand, k: Hand)
    requires h.category == k.category && h.owner == k.owner && multiset(h.cards) == multiset(k.cards)
    ensures IsValid(h) == IsValid(k) && TopCard(h) == TopCard(k) && |h.cards| == |k.cards|
  {
    HandProperties.ValidityIgnoresOrder(h.category, h.owner, h.cards, k.cards);
    assert |h.cards| == |k.cards| by { assert |multiset(h.cards)| == |multiset(k.cards)|; }
  }

  /**
   * A list that keeps its cards and ends sorted is the sorted copy of the old list, so
   * the order Beats leaves behind is fully determined.
   */
  lemma SortedKeptIsSortedCopy(now: seq<Card>, before: seq<Card>)
    requires Sorted(now) && multiset(now) == multiset(before)
    ensures now == SortCards(before)
  {
    SortedUnique(now, SortCards(before));
  }

  class HandObject {
    /** Seat of the player who holds this hand. */
    const owner: int
    /** The hand class the object was built as. */
    const category: Category
    var cards: seq<Card>

    /** The hand as a value. */
    function Value(): Hand
      reads this
    {
      Hand(category, owner, cards)
    }

    /** Hand(player, cards): copy the non-null cards one at a time. */
    constructor (owner: int, category: Category, input: seq<Option<Card>>)
      ensures this.owner == owner && this.category == category
      ensures cards == NonNull(input)
    {
      var kept: seq<Card> := [];
      var i := 0;
      while i < |input|
        invariant 0 <= i <= |input|
        invariant kept == NonNull(input[..i])
      {
        if input[i].Some? {
          kept := kept + [input[i].value];
        }
        assert input[..i + 1][..i] == input[..i];
        i := i + 1;
      }
      assert input[..|input|] == input;
      this.owner := owner;
      this.category := category;
      cards := kept;
    }

    /** CardList.sort on this hand's list. */
    method Sort()
      modifies this
      ensures cards == SortCards(old(cards))
    {
      cards := SortCards(cards);
    }

    /**
     * getTopCard: sorts the list in place and reads it. Flush, FullHouse and Quad read
     * five positions, which on one to four cards are positions that do not exist.
     */
    method GetTopCard() returns (top: Option<Card>)
      requires category in {Flush, FullHouse, Quad} ==> |cards| == 0 || |cards| >= 5
      modifies this
      ensures top == TopCard(old(Value()))
      ensures cards == if |old(cards)| > 0 then SortCards(old(cards)) else old(cards)
      ensures multiset(cards) == multiset(old(cards))
    {
      if |cards| == 0 {
        return None;
      }
      Sort();
      assert TopCard(old(Value())) == TopOfSorted(category, cards);
      match category
      case Flush =>
        top := if SameSuit(cards) then Some(cards[4]) else None;
      case FullHouse =>
        if TripleThenPair(cards) {
          top := Some(cards[2]);
        } else if PairThenTriple(cards) {
          top := Some(cards[4]);
        } else {
          top := None;
        }
      case Quad =>
        if FourThenOne(cards) {
          top := Some(cards[3]);
        } else if OneThenFour(cards) {
          top := Some(cards[4]);
        } else {
          top := None;
        }
      case _ =>
        top := Some(cards[|cards| - 1]);
    }

    /**
     * isValid of the hand's class. Single, Pair and Triple read the list as it is;
     * the five-card classes sort it in place first.
     */
    method IsValid() returns (valid: bool)
      modifies this
      ensures valid == IsValidCards(category, old(cards))
      ensures cards == if IsFiveCardCategory(category) && |old(cards)| == 5
                       then SortCards(old(cards)) else old(cards)
      ensures multiset(cards) == multiset(old(cards))
    {
      match category
      case Single =>
        valid := |cards| == 1;
      case Pair =>
        valid := |cards| == 2 && cards[0].rank == cards[1].rank;
      case Triple =>
        valid := |cards| == 3 && cards[0].rank == cards[1].rank && cards[1].rank == cards[2].rank;
      case Straight =>
        if |cards| != 5 {
          return false;
        }
        Sort();
        valid := StraightRanks(cards);
      case Flush =>
        if |cards| != 5 {
          return false;
        }
        Sort();
        valid := SameSuit(cards);
      case FullHouse =>
        if |cards| != 5 {
          return false;
        }
        Sort();
        valid := TripleThenPair(cards) || PairThenTriple(cards);
      case Quad =>
        if |cards| != 5 {
          return false;
        }
        Sort();
        valid := FourThenOne(cards) || OneThenFour(cards);
      case StraightFlush =>
        if |cards| != 5 {
          return false;
        }
        Sort();
        valid := StraightRanks(cards) && SameSuit(cards);
    }

    /**
     * beats: the value-level rule on the two hands as they were. Each list keeps its
     * cards and is either left alone or sorted in place; a winning verdict has sorted
     * both (so each is then the sorted copy of its old list, by Cards.SortedUnique).
     */
    method Beats(other: HandObject) returns (b: bool)
      modifies this, other
      ensures b == Hands.Beats(old(Value()), old(other.Value()))
      ensures multiset(cards) == multiset(old(cards))
      ensures multiset(other.cards) == multiset(old(other.cards))
      ensures cards == old(cards) || Sorted(cards)
      ensures other.cards == old(other.cards) || Sorted(other.cards)
      ensures b ==> Sorted(cards) && Sorted(other.cards)
    {
      ghost var h, o := Value(), other.Value();
      var validMine := IsValid();
      if !validMine {
        return false;
      }
      b := BeatsValid(other, h, o);
    }

    /**
     * The rest of beats once this hand is known to be valid: the other hand's test,
     * then the category checks. `h` and `o` are the two hands before any sorting; this
     * list, if of a five-card class, has already been sorted by isValid.
     */
    method BeatsValid(other: HandObject, ghost h: Hand, ghost o: Hand) returns (b: bool)
      requires Hands.IsValid(h)
      requires Value().(cards := h.cards) == h && multiset(cards) == multiset(h.cards)
      requires other.Value().(cards := o.cards) == o && multiset(other.cards) == multiset(o.cards)
      requires cards == h.cards || Sorted(cards)
      requires other.cards == o.cards || Sorted(other.cards)
      requires IsFiveCardCategory(h.category) ==> Sorted(cards)
      modifies this, other
      ensures b == Hands.Beats(h, o)
      ensures multiset(cards) == multiset(h.cards)
      ensures multiset(other.cards) == multiset(o.cards)
      ensures cards == h.cards || Sorted(cards)
      ensures other.cards == o.cards || Sorted(other.cards)
      ensures b ==> Sorted(cards) && Sorted(other.cards)
    {
      ghost var mine, theirs := cards, other.cards;
      SameCardsSameVerdict(o, other.Value());
      var validTheirs := other.IsValid();
      assert validTheirs == Hands.IsValid(o);
      assert other != this ==> cards == mine;
      if !validTheirs {
        return false;
      }
      assert IsFiveCardCategory(o.category) ==> |theirs| == 5 && other.cards == SortCards(theirs);
      b := BothValid(other, h, o);
    }

    /**
     * beats on two valid hands: the category and size checks, then the top cards. Each
     * list of a five-card class has already been sorted by its isValid.
     */
    method BothValid(other: HandObject, ghost h: Hand, ghost o: Hand) returns (b: bool)
      requires Hands.IsValid(h) && Hands.IsValid(o)
      requires Value().(cards := h.cards) == h && multiset(cards) == multiset(h.cards)
      requires other.Value().(cards := o.cards) == o && multiset(other.cards) == multiset(o.cards)
      requires cards == h.cards || Sorted(cards)
      requires other.cards == o.cards || Sorted(other.cards)
      requires IsFiveCardCategory(h.category) ==> Sorted(cards)
      requires IsFiveCardCategory(o.category) ==> Sorted(other.cards)
      modifies this, other
      ensures b == Hands.Beats(h, o)
      ensures multiset(cards) == multiset(h.cards)
      ensures multiset(other.cards) == multiset(o.cards)
      ensures cards == h.cards || Sorted(cards)
      ensures other.cards == o.cards || Sorted(other.cards)
      ensures b ==> Sorted(cards) && Sorted(other.cards)
    {
      SameCardsSameVerdict(h, Value());
      SameCardsSameVerdict(o, other.Value());
      if category.Single? || category.Pair? || category.Triple? {
        if category != other.category {
          return false;
        }
      } else {
        if |cards| != |other.cards| || |other.cards| != 5 {
          return false;
        }
        if category != other.category {
          return Size5Index(category) > Size5Index(other.category);
        }
      }
      b := CompareTops(other, h, o);
    }

    /** The last step of beats on two valid hands of one class: getTopCard on both, compared. */
    method CompareTops(other: HandObject, ghost h: Hand, ghost o: Hand) returns (b: bool)
      requires Hands.IsValid(h) && Hands.IsValid(o) && h.category == o.category
      requires Value().(cards := h.cards) == h && multiset(cards) == multiset(h.cards)
      requires other.Value().(cards := o.cards) == o && multiset(other.cards) == multiset(o.cards)
      modifies this, other
      ensures b == TopBeats(h.category, TopCard(h), TopCard(o))
      ensures multiset(cards) == multiset(h.cards)
      ensures multiset(other.cards) == multiset(o.cards)
      ensures Sorted(cards) && Sorted(other.cards)
    {
      SameCardsSameVerdict(h, Value());
      var top := GetTopCard();
      ghost var mine := cards;
      SameCardsSameVerdict(o, other.Value());
      var otherTop := other.GetTopCard();
      assert other != this ==> cards == mine;
      b := TopBeats(category, top, otherTop);
    }
  }
}
