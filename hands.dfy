/**
 * Hand categories of Big Two (Single, Pair, Triple, Straight, Flush, FullHouse, Quad,
 * StraightFlush): the validity test of each hand class, its top card and its beats
 * rule, as values. A hand is tagged with its category; `Beats` dispatches on the
 * challenger's category, as Java's dynamic dispatch on the challenger object does.
 */
module Hands {
  import opened Wrappers
  import opened Cards

  datatype Category = Single | Pair | Triple | Straight | Flush | FullHouse | Quad | StraightFlush

  /** A hand of cards played by the player in seat `owner`. */
  datatype Hand = Hand(category: Category, owner: int, cards: seq<Card>)

  /** getType of each hand class. */
  function TypeName(c: Category): string
  {
    match c
    case Single => "Single"
    case Pair => "Pair"
    case Triple => "Triple"
    case Straight => "Straight"
    case Flush => "Flush"
    case FullHouse => "FullHouse"
    case Quad => "Quad"
    case StraightFlush => "StraightFlush"
  }

  /**
   * The type names are pairwise different, so comparing two hands' getType strings
   * (which the source does with ==, on interned literals) is comparing categories.
   */
  lemma TypeNameInjective(a: Category, b: Category)
    ensures TypeName(a) == TypeName(b) <==> a == b
  {
  }

  /** The list the five-card beats methods build, weakest category first. */
  const Size5: seq<string> := ["Straight", "Flush", "FullHouse", "Quad", "StraightFlush"]

  /** ArrayList.indexOf: the first position holding `name`, or -1. */
  function IndexOf(names: seq<string>, name: string): (i: int)
    ensures -1 <= i < |names|
    ensures 0 <= i ==> names[i] == name && name !in names[..i]
    ensures i == -1 <==> name !in names
  {
    if names == [] then -1
    else if names[0] == name then 0
    else
      var k := IndexOf(names[1..], name);
      assert names == [names[0]] + names[1..];
      if k == -1 then -1
      else
        assert names[..k + 1] == [names[0]] + names[1..][..k];
        k + 1
  }

  /** Position of a category's name in Size5. */
  function Size5Index(c: Category): int
  {
    IndexOf(Size5, TypeName(c))
  }

  predicate IsFiveCardCategory(c: Category)
  {
    c.Straight? || c.Flush? || c.FullHouse? || c.Quad? || c.StraightFlush?
  }

  /** The category strength order Straight < Flush < FullHouse < Quad < StraightFlush. */
  function Strength(c: Category): int
  {
    match c
    case Straight => 0
    case Flush => 1
    case FullHouse => 2
    case Quad => 3
    case StraightFlush => 4
    case _ => -1
  }

  /** Looking a name up in Size5 gives the strength of its category, and -1 off the list. */
  lemma Size5IndexIsStrength(c: Category)
    ensures Size5Index(c) == Strength(c)
    ensures IsFiveCardCategory(c) <==> Size5Index(c) >= 0
  {
    var names := Size5;
    var n := TypeName(c);
    if c.Straight? {
      return;
    }
    assert names[1..] == ["Flush", "FullHouse", "Quad", "StraightFlush"];
    if c.Flush? {
      return;
    }
    assert names[1..][1..] == ["FullHouse", "Quad", "StraightFlush"];
    if c.FullHouse? {
      return;
    }
    assert names[1..][1..][1..] == ["Quad", "StraightFlush"];
    if c.Quad? {
      return;
    }
    assert names[1..][1..][1..][1..] == ["StraightFlush"];
    if c.StraightFlush? {
      return;
    }
    assert n != names[0] && n != names[1] && n != names[2] && n != names[3] && n != names[4];
    assert n !in names;
  }

  /* Positional tests on the first five cards of a sorted list, as the isValid and
     getTopCard methods read card1..card5 after sorting. */

  /** Straight.isValid: J-Q-K-A-2, 10-J-Q-K-A, or five consecutive rank indices. */
  predicate StraightRanks(s: seq<Card>)
    requires |s| >= 5
  {
    (s[0].rank == 10 && s[1].rank == 11 && s[2].rank == 12 && s[3].rank == 0 && s[4].rank == 1) ||
    (s[0].rank == 9 && s[1].rank == 10 && s[2].rank == 11 && s[3].rank == 12 && s[4].rank == 0) ||
    (s[0].rank == s[1].rank - 1 && s[1].rank == s[2].rank - 1 && s[2].rank == s[3].rank - 1 &&
     s[3].rank == s[4].rank - 1)
  }

  /** Flush.isValid: all five suits equal. */
  predicate SameSuit(s: seq<Card>)
    requires |s| >= 5
  {
    s[0].suit == s[1].suit && s[1].suit == s[2].suit && s[2].suit == s[3].suit && s[3].suit == s[4].suit
  }

  /** Three of one rank, then two of another. */
  predicate TripleThenPair(s: seq<Card>)
    requires |s| >= 5
  {
    s[0].rank == s[1].rank && s[1].rank == s[2].rank && s[2].rank != s[3].rank && s[3].rank == s[4].rank
  }

  /** Two of one rank, then three of another. */
  predicate PairThenTriple(s: seq<Card>)
    requires |s| >= 5
  {
    s[0].rank == s[1].rank && s[1].rank != s[2].rank && s[2].rank == s[3].rank && s[3].rank == s[4].rank
  }

  /** Four of one rank, then one of another. */
  predicate FourThenOne(s: seq<Card>)
    requires |s| >= 5
  {
    s[0].rank == s[1].rank && s[1].rank == s[2].rank && s[2].rank == s[3].rank && s[3].rank != s[4].rank
  }

  /** One card, then four of another rank. */
  predicate OneThenFour(s: seq<Card>)
    requires |s| >= 5
  {
    s[0].rank != s[1].rank && s[1].rank == s[2].rank && s[2].rank == s[3].rank && s[3].rank == s[4].rank
  }

  /**
   * isValid of each hand class. Single, Pair and Triple read the cards in the order
   * given; the five-card classes test the sorted copy.
   */
  predicate IsValidCards(c: Category, cards: seq<Card>)
  {
    match c
    case Single => |cards| == 1
    case Pair => |cards| == 2 && cards[0].rank == cards[1].rank
    case Triple => |cards| == 3 && cards[0].rank == cards[1].rank && cards[1].rank == cards[2].rank
    case Straight => |cards| == 5 && StraightRanks(SortCards(cards))
    case Flush => |cards| == 5 && SameSuit(SortCards(cards))
    case FullHouse =>
      |cards| == 5 && (TripleThenPair(SortCards(cards)) || PairThenTriple(SortCards(cards)))
    case Quad => |cards| == 5 && (FourThenOne(SortCards(cards)) || OneThenFour(SortCards(cards)))
    case StraightFlush => |cards| == 5 && StraightRanks(SortCards(cards)) && SameSuit(SortCards(cards))
  }

  predicate IsValid(h: Hand)
  {
    IsValidCards(h.category, h.cards)
  }

  /**
   * getTopCard of each hand class. Hand's default (Single, Pair, Triple, Straight,
   * StraightFlush) is the last card of the sorted copy; Flush, FullHouse and Quad
   * read fixed positions of the sorted copy and give null when the pattern fails.
   * (On one to four cards those three read positions that do not exist; here they
   * give None.)
   */
  function TopCard(h: Hand): (r: Option<Card>)
    ensures IsValid(h) ==> r.Some? && r.value in h.cards
    ensures |h.cards| == 0 ==> r.None?
  {
    var s := SortCards(h.cards);
    SameMembers(h.cards, s);
    TopOfSorted(h.category, s)
  }

  /** The card getTopCard of class `c` reads from the sorted list `s`, if any. */
  function TopOfSorted(c: Category, s: seq<Card>): (r: Option<Card>)
    ensures r.Some? ==> r.value in s
  {
    if |s| == 0 then None
    else
      match c
      case Flush =>
        if |s| >= 5 && SameSuit(s) then Some(s[4]) else None
      case FullHouse =>
        if |s| < 5 then None
        else if TripleThenPair(s) then Some(s[2])
        else if PairThenTriple(s) then Some(s[4])
        else None
      case Quad =>
        if |s| < 5 then None
        else if FourThenOne(s) then Some(s[3])
        else if OneThenFour(s) then Some(s[4])
        else None
      case _ => Some(s[|s| - 1])
  }

  /**
   * Same-category rule on the two top cards: Flush compares suit first, then game
   * rank; FullHouse and Quad compare game rank only; every other class compares game
   * rank, then suit. A missing top card never wins.
   */
  predicate TopBeats(c: Category, t: Option<Card>, u: Option<Card>)
  {
    t.Some? && u.Some? &&
    var a, b := GameRank(t.value.rank), GameRank(u.value.rank);
    match c
    case Flush => t.value.suit > u.value.suit || (t.value.suit == u.value.suit && a > b)
    case FullHouse => a > b
    case Quad => a > b
    case _ => a > b || (a == b && t.value.suit > u.value.suit)
  }

  /**
   * `h.beats(other)`. Single, Pair and Triple use Hand.beats: both valid, same
   * category, then the top cards. The five-card classes demand both valid, equal
   * sizes and five cards; the same category goes to the top cards and different
   * categories to their positions in Size5.
   */
  predicate Beats(h: Hand, other: Hand)
  {
    if h.category.Single? || h.category.Pair? || h.category.Triple? then
      IsValid(h) && IsValid(other) && h.category == other.category &&
      TopBeats(h.category, TopCard(h), TopCard(other))
    else
      IsValid(h) && IsValid(other) && |h.cards| == |other.cards| && |other.cards| == 5 &&
      if h.category == other.category then TopBeats(h.category, TopCard(h), TopCard(other))
      else Size5Index(h.category) > Size5Index(other.category)
  }
}
