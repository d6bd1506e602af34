/**
 * What the hand classes promise: which card sets each isValid accepts, what the top
 * card of a valid hand is, and how beats orders hands.
 */
module HandProperties {
  import opened Cards
  import opened Hands

  /* ---------------------------------------------------------------------------
     Classification
     --------------------------------------------------------------------------- */

  /** Every card of the list has the same rank. */
  predicate AllSameRank(cards: seq<Card>)
  {
    forall a, b :: a in cards && b in cards ==> a.rank == b.rank
  }

  /**
   * Single accepts exactly the one-card lists, whatever the card; Pair and Triple
   * accept exactly the two- and three-card lists whose cards share one rank.
   */
  lemma SmallHandsBySize(cards: seq<Card>)
    ensures IsValidCards(Single, cards) <==> |cards| == 1
    ensures IsValidCards(Pair, cards) <==> |cards| == 2 && AllSameRank(cards)
    ensures IsValidCards(Triple, cards) <==> |cards| == 3 && AllSameRank(cards)
  {
    if |cards| == 2 && cards[0].rank == cards[1].rank {
      forall a, b | a in cards && b in cards
        ensures a.rank == b.rank
      {
      }
    }
    if |cards| == 3 && cards[0].rank == cards[1].rank && cards[1].rank == cards[2].rank {
      forall a, b | a in cards && b in cards
        ensures a.rank == b.rank
      {
      }
    }
    if |cards| == 3 && AllSameRank(cards) {
      assert cards[0] in cards && cards[1] in cards && cards[2] in cards;
    }
    if |cards| == 2 && AllSameRank(cards) {
      assert cards[0] in cards && cards[1] in cards;
    }
  }

  /** Two lists with the same cards have one rank throughout together or not at all. */
  lemma SameRankIgnoresOrder(s: seq<Card>, t: seq<Card>)
    requires multiset(s) == multiset(t)
    ensures AllSameRank(s) <==> AllSameRank(t)
  {
    SameMembers(s, t);
    if AllSameRank(s) {
      forall a, b | a in t && b in t
        ensures a.rank == b.rank
      {
        assert a in s && b in s;
      }
    }
    if AllSameRank(t) {
      forall a, b | a in s && b in s
        ensures a.rank == b.rank
      {
        assert a in t && b in t;
      }
    }
  }

  /** Every category's test, and its top card, depend only on which cards are held. */
  lemma ValidityIgnoresOrder(c: Category, owner: int, s: seq<Card>, t: seq<Card>)
    requires multiset(s) == multiset(t)
    ensures IsValidCards(c, s) <==> IsValidCards(c, t)
    ensures TopCard(Hand(c, owner, s)) == TopCard(Hand(c, owner, t))
  {
    TestIgnoresOrder(c, s, t);
    TopCardIgnoresOrder(c, owner, s, t);
  }

  /** A category's test gives the same verdict on any reordering of the cards. */
  lemma TestIgnoresOrder(c: Category, s: seq<Card>, t: seq<Card>)
    requires multiset(s) == multiset(t)
    ensures IsValidCards(c, s) <==> IsValidCards(c, t)
  {
    assert |s| == |t| by { assert |multiset(s)| == |multiset(t)|; }
    if c.Pair? || c.Triple? {
      SmallHandsBySize(s);
      SmallHandsBySize(t);
      SameRankIgnoresOrder(s, t);
    } else {
      SortPermutationInvariant(s, t);
    }
  }

  /** The top card is read from the sorted copy, which is the same for any reordering. */
  lemma TopCardIgnoresOrder(c: Category, owner: int, s: seq<Card>, t: seq<Card>)
    requires multiset(s) == multiset(t)
    ensures TopCard(Hand(c, owner, s)) == TopCard(Hand(c, owner, t))
  {
    SortPermutationInvariant(s, t);
  }

  /** Sorted game ranks of five cards that climb one step at a time. */
  predicate ConsecutiveGameRanks(s: seq<Card>)
    requires |s| >= 5
  {
    forall k :: 0 <= k < 5 ==> GameRank(s[k].rank) == GameRank(s[0].rank) + k
  }

  lemma SortedGameRanksClimb(s: seq<Card>)
    requires |s| == 5 && Sorted(s)
    ensures GameRank(s[0].rank) <= GameRank(s[1].rank) <= GameRank(s[2].rank)
            <= GameRank(s[3].rank) <= GameRank(s[4].rank)
  {
    assert Key(s[0]) <= Key(s[1]) && Key(s[1]) <= Key(s[2]);
    assert Key(s[2]) <= Key(s[3]) && Key(s[3]) <= Key(s[4]);
  }

  /** On a sorted list, the Straight test holds exactly on five consecutive game ranks. */
  lemma StraightRanksAreWindow(s: seq<Card>)
    requires |s| == 5 && Sorted(s)
    ensures StraightRanks(s) <==> ConsecutiveGameRanks(s)
  {
    SortedGameRanksClimb(s);
    if ConsecutiveGameRanks(s) {
      assert GameRank(s[1].rank) == GameRank(s[0].rank) + 1;
      assert GameRank(s[2].rank) == GameRank(s[0].rank) + 2;
      assert GameRank(s[3].rank) == GameRank(s[0].rank) + 3;
      assert GameRank(s[4].rank) == GameRank(s[0].rank) + 4;
    }
  }

  /**
   * A valid Straight is exactly five cards whose sorted game ranks are five
   * consecutive steps of 3 < 4 < ... < K < A < 2.
   */
  lemma StraightIsWindow(cards: seq<Card>)
    requires |cards| == 5
    ensures IsValidCards(Straight, cards) <==> ConsecutiveGameRanks(SortCards(cards))
  {
    StraightRanksAreWindow(SortCards(cards));
  }

  /**
   * No valid Straight holds both a 2 and a 3, so A-2-3-4-5 and 2-3-4-5-6 are not
   * straights.
   */
  lemma NoStraightHoldsTwoAndThree(cards: seq<Card>, two: Card, three: Card)
    requires IsValidCards(Straight, cards)
    requires two in cards && three in cards
    ensures !(two.rank == 1 && three.rank == 2)
  {
    var s := SortCards(cards);
    StraightIsWindow(cards);
    SameMembers(cards, s);
    var i :| 0 <= i < 5 && s[i] == two;
    var j :| 0 <= j < 5 && s[j] == three;
    assert GameRank(s[i].rank) == GameRank(s[0].rank) + i;
    assert GameRank(s[j].rank) == GameRank(s[0].rank) + j;
  }

  /** StraightFlush accepts exactly the lists both Straight and Flush accept. */
  lemma StraightFlushIsStraightAndFlush(cards: seq<Card>)
    ensures IsValidCards(StraightFlush, cards) <==>
            IsValidCards(Straight, cards) && IsValidCards(Flush, cards)
  {
  }

  /** The Quad and FullHouse patterns never hold together. */
  lemma QuadAndFullHouseDisjoint(cards: seq<Card>)
    ensures !(IsValidCards(Quad, cards) && IsValidCards(FullHouse, cards))
  {
  }

  /** In a sorted list without repeated cards, neighbours strictly climb. */
  lemma SortedDistinctClimbs(s: seq<Card>)
    requires |s| == 5 && Sorted(s) && Distinct(s)
    ensures Key(s[0]) < Key(s[1]) < Key(s[2]) < Key(s[3]) < Key(s[4])
  {
    assert Key(s[0]) <= Key(s[1]) && Key(s[1]) <= Key(s[2]);
    assert Key(s[2]) <= Key(s[3]) && Key(s[3]) <= Key(s[4]);
    KeyInjective(s[0], s[1]);
    KeyInjective(s[1], s[2]);
    KeyInjective(s[2], s[3]);
    KeyInjective(s[3], s[4]);
  }

  /**
   * Five different cards (as dealt from one deck) satisfy at most one five-card
   * test, except that a StraightFlush also passes the Straight and Flush tests.
   */
  lemma FiveCardCategoriesExclusive(cards: seq<Card>, c1: Category, c2: Category)
    requires |cards| == 5 && Distinct(cards)
    requires c1 != c2 && IsValidCards(c1, cards) && IsValidCards(c2, cards)
    ensures IsValidCards(StraightFlush, cards)
    ensures c1 in {Straight, Flush, StraightFlush} && c2 in {Straight, Flush, StraightFlush}
  {
    var s := SortCards(cards);
    DistinctPermutation(cards, s);
    SortedDistinctClimbs(s);
  }

  /**
   * The top card is the highest card in game order: for any non-empty Single, Pair,
   * Triple, Straight or StraightFlush, valid or not, and for a valid Flush.
   */
  lemma TopCardIsHighest(h: Hand)
    requires (h.category in {Single, Pair, Triple, Straight, StraightFlush} && |h.cards| > 0) ||
             (h.category == Flush && IsValid(h))
    ensures forall c :: c in h.cards ==> CompareTo(c, TopCard(h).value) <= 0
  {
    LastOfSortedIsMax(h.cards);
  }

  /** Number of cards of rank r in a list (one count per suit). */
  function RankCount(cards: seq<Card>, r: Rank): nat
  {
    multiset(cards)[Card(0, r)] + multiset(cards)[Card(1, r)] +
    multiset(cards)[Card(2, r)] + multiset(cards)[Card(3, r)]
  }

  lemma {:induction false} RankCountByPosition(s: seq<Card>, r: Rank)
    ensures RankCount(s, r) == if s == [] then 0 else (if s[0].rank == r then 1 else 0) + RankCount(s[1..], r)
  {
    if s != [] {
      assert s == [s[0]] + s[1..];
      assert multiset(s) == multiset{s[0]} + multiset(s[1..]);
    }
  }

  lemma RankCountFive(s: seq<Card>, r: Rank)
    requires |s| == 5
    ensures RankCount(s, r) ==
      (if s[0].rank == r then 1 else 0) + (if s[1].rank == r then 1 else 0) +
      (if s[2].rank == r then 1 else 0) + (if s[3].rank == r then 1 else 0) +
      (if s[4].rank == r then 1 else 0)
  {
    RankCountByPosition(s, r);
    RankCountByPosition(s[1..], r);
    RankCountByPosition(s[2..], r);
    RankCountByPosition(s[3..], r);
    RankCountByPosition(s[4..], r);
    assert s[1..][1..] == s[2..] && s[2..][1..] == s[3..] && s[3..][1..] == s[4..];
    assert s[4..][1..] == [];
  }

  /**
   * The top card of a valid FullHouse has the rank held three times, and some other
   * rank is held twice.
   */
  lemma FullHouseTopIsTripleRank(h: Hand)
    requires h.category == FullHouse && IsValid(h)
    ensures RankCount(h.cards, TopCard(h).value.rank) == 3
    ensures exists r: Rank :: r != TopCard(h).value.rank && RankCount(h.cards, r) == 2
  {
    var s := SortCards(h.cards);
    var top := TopCard(h).value;
    RankCountFive(s, top.rank);
    var other := if TripleThenPair(s) then s[4].rank else s[0].rank;
    RankCountFive(s, other);
    assert RankCount(h.cards, other) == RankCount(s, other);
  }

  /** The top card of a valid Quad has the rank held four times. */
  lemma QuadTopIsQuadRank(h: Hand)
    requires h.category == Quad && IsValid(h)
    ensures RankCount(h.cards, TopCard(h).value.rank) == 4
  {
    RankCountFive(SortCards(h.cards), TopCard(h).value.rank);
  }

  /** Flush accepts exactly the five-card lists whose cards all share one suit. */
  lemma FlushIsOneSuit(cards: seq<Card>)
    requires |cards| == 5
    ensures IsValidCards(Flush, cards) <==> forall c :: c in cards ==> c.suit == cards[0].suit
  {
    var s := SortCards(cards);
    SameMembers(cards, s);
    if forall c :: c in cards ==> c.suit == cards[0].suit {
      assert s[0] in cards && s[1] in cards && s[2] in cards && s[3] in cards && s[4] in cards;
    }
    if IsValidCards(Flush, cards) {
      forall c | c in cards
        ensures c.suit == cards[0].suit
      {
        assert c in s && cards[0] in s;
      }
    }
  }

  /** Distinct ranks have distinct game ranks. */
  lemma GameRankInjective(r: Rank, q: Rank)
    ensures GameRank(r) == GameRank(q) <==> r == q
  {
  }

  /** On a sorted list, three cards of one rank and two of another form the FullHouse pattern. */
  lemma SortedTripleAndPair(s: seq<Card>, r: Rank, q: Rank)
    requires |s| == 5 && Sorted(s) && r != q
    requires RankCount(s, r) == 3 && RankCount(s, q) == 2
    ensures TripleThenPair(s) || PairThenTriple(s)
  {
    RankCountFive(s, r);
    RankCountFive(s, q);
    SortedGameRanksClimb(s);
    GameRankInjective(r, q);
  }

  /**
   * FullHouse accepts exactly the five-card lists holding three cards of one rank and
   * two of another.
   */
  lemma FullHouseIsTripleAndPair(cards: seq<Card>)
    requires |cards| == 5
    ensures IsValidCards(FullHouse, cards) <==>
      exists r: Rank, q: Rank :: r != q && RankCount(cards, r) == 3 && RankCount(cards, q) == 2
  {
    if IsValidCards(FullHouse, cards) {
      FullHouseTopIsTripleRank(Hand(FullHouse, 0, cards));
    }
    if exists r: Rank, q: Rank :: r != q && RankCount(cards, r) == 3 && RankCount(cards, q) == 2 {
      var r: Rank, q: Rank :| r != q && RankCount(cards, r) == 3 && RankCount(cards, q) == 2;
      var s := SortCards(cards);
      assert RankCount(s, r) == 3 && RankCount(s, q) == 2;
      SortedTripleAndPair(s, r, q);
    }
  }

  /** On a sorted list, four cards of one rank form the Quad pattern. */
  lemma SortedFourOfARank(s: seq<Card>, r: Rank)
    requires |s| == 5 && Sorted(s) && RankCount(s, r) == 4
    ensures FourThenOne(s) || OneThenFour(s)
  {
    RankCountFive(s, r);
    SortedGameRanksClimb(s);
    forall k | 0 <= k < 5
      ensures GameRank(s[k].rank) == GameRank(r) ==> s[k].rank == r
    {
      GameRankInjective(s[k].rank, r);
    }
  }

  /** Quad accepts exactly the five-card lists holding four cards of one rank. */
  lemma QuadIsFourOfARank(cards: seq<Card>)
    requires |cards| == 5
    ensures IsValidCards(Quad, cards) <==> exists r: Rank :: RankCount(cards, r) == 4
  {
    if IsValidCards(Quad, cards) {
      QuadTopIsQuadRank(Hand(Quad, 0, cards));
    }
    if exists r: Rank :: RankCount(cards, r) == 4 {
      var r: Rank :| RankCount(cards, r) == 4;
      var s := SortCards(cards);
      assert RankCount(s, r) == 4;
      SortedFourOfARank(s, r);
    }
  }

  /* ---------------------------------------------------------------------------
     Comparison
     --------------------------------------------------------------------------- */

  /** beats never holds unless both hands are valid and of the same size. */
  lemma BeatsNeedsValidSameSize(a: Hand, b: Hand)
    requires Beats(a, b)
    ensures IsValid(a) && IsValid(b) && |a.cards| == |b.cards|
  {
  }

  /** Single, Pair and Triple never beat a hand of another category. */
  lemma SmallHandsNeedSameCategory(a: Hand, b: Hand)
    requires a.category in {Single, Pair, Triple} && a.category != b.category
    ensures !Beats(a, b)
  {
  }

  /**
   * Single, Pair, Triple, Straight and StraightFlush against the same category: a
   * higher game rank of the top card wins, and an equal one goes to the higher suit.
   */
  lemma RankThenSuitRule(a: Hand, b: Hand)
    requires IsValid(a) && IsValid(b) && a.category == b.category
    requires a.category in {Single, Pair, Triple, Straight, StraightFlush}
    ensures Beats(a, b) <==>
      GameRank(TopCard(a).value.rank) > GameRank(TopCard(b).value.rank) ||
      (GameRank(TopCard(a).value.rank) == GameRank(TopCard(b).value.rank) &&
       TopCard(a).value.suit > TopCard(b).value.suit)
  {
  }

  /**
   * Flush against Flush: the suit of the top card decides first, and only an equal
   * suit goes to the game rank.
   */
  lemma FlushSuitFirstRule(a: Hand, b: Hand)
    requires IsValid(a) && IsValid(b) && a.category == Flush && b.category == Flush
    ensures TopCard(a).value.suit > TopCard(b).value.suit ==> Beats(a, b)
    ensures TopCard(a).value.suit < TopCard(b).value.suit ==> !Beats(a, b)
    ensures TopCard(a).value.suit == TopCard(b).value.suit ==>
      (Beats(a, b) <==> GameRank(TopCard(a).value.rank) > GameRank(TopCard(b).value.rank))
  {
  }

  /** Every card of a valid Flush has the suit of its top card. */
  lemma FlushTopSuitIsFlushSuit(h: Hand)
    requires h.category == Flush && IsValid(h)
    ensures forall c :: c in h.cards ==> c.suit == TopCard(h).value.suit
  {
    var s := SortCards(h.cards);
    SameMembers(h.cards, s);
    forall c | c in h.cards
      ensures c.suit == TopCard(h).value.suit
    {
      assert c in s;
    }
  }

  /**
   * FullHouse against FullHouse and Quad against Quad: only a strictly higher game
   * rank of the triple (or four) wins; suits never break a tie.
   */
  lemma GroupRankRule(a: Hand, b: Hand)
    requires IsValid(a) && IsValid(b) && a.category == b.category
    requires a.category in {FullHouse, Quad}
    ensures Beats(a, b) <==> GameRank(TopCard(a).value.rank) > GameRank(TopCard(b).value.rank)
  {
  }

  /**
   * Five-card hands of different categories: the challenger wins exactly when its
   * category is stronger in Straight < Flush < FullHouse < Quad < StraightFlush.
   */
  lemma CategoryStrengthRule(a: Hand, b: Hand)
    requires IsValid(a) && IsValid(b) && |a.cards| == 5 && |b.cards| == 5
    requires a.category != b.category
    ensures Beats(a, b) <==> Strength(a.category) > Strength(b.category)
  {
    Size5IndexIsStrength(a.category);
    Size5IndexIsStrength(b.category);
  }

  /** A valid StraightFlush beats every valid five-card hand of another category. */
  lemma StraightFlushBeatsOtherFiveCardHands(a: Hand, b: Hand)
    requires a.category == StraightFlush && b.category != StraightFlush
    requires IsValid(a) && IsValid(b) && |b.cards| == 5
    ensures Beats(a, b)
  {
    CategoryStrengthRule(a, b);
  }

  /** A Straight beats no hand of another category. */
  lemma StraightBeatsNoOtherCategory(a: Hand, b: Hand)
    requires a.category == Straight && b.category != Straight
    ensures !Beats(a, b)
  {
    if Beats(a, b) {
      CategoryStrengthRule(a, b);
    }
  }

  /** No hand beats itself. */
  lemma BeatsIrreflexive(h: Hand)
    ensures !Beats(h, h)
  {
  }

  /** If a beats b then b does not beat a. */
  lemma BeatsAsymmetric(a: Hand, b: Hand)
    requires Beats(a, b)
    ensures !Beats(b, a)
  {
    if a.category != b.category {
      CategoryStrengthRule(a, b);
      CategoryStrengthRule(b, a);
    }
  }

  /** One Single beats another exactly when compareTo puts its card above. */
  lemma SinglesFollowCompareTo(a: Hand, b: Hand)
    requires a.category == Single && b.category == Single
    requires |a.cards| == 1 && |b.cards| == 1
    ensures Beats(a, b) <==> CompareTo(a.cards[0], b.cards[0]) == 1
  {
    SortIdempotent(a.cards);
    SortIdempotent(b.cards);
  }

  /** Higher of the two suits of a pair. */
  function MaxSuit(cards: seq<Card>): Suit
    requires |cards| == 2
  {
    if cards[0].suit >= cards[1].suit then cards[0].suit else cards[1].suit
  }

  /** The top card of a valid Pair has the pair's rank and the higher of its two suits. */
  lemma PairTopCard(h: Hand)
    requires h.category == Pair && IsValid(h)
    ensures TopCard(h).value.rank == h.cards[0].rank
    ensures TopCard(h).value.suit == MaxSuit(h.cards)
  {
    var t := TopCard(h).value;
    TopCardIsHighest(h);
    assert h.cards[0] in h.cards && h.cards[1] in h.cards;
    assert Key(h.cards[0]) <= Key(t) && Key(h.cards[1]) <= Key(t);
    assert t == h.cards[0] || t == h.cards[1];
  }

  /** Of two valid Pairs of one rank, the one holding the higher suit wins. */
  lemma PairsOfOneRankBySuit(a: Hand, b: Hand)
    requires a.category == Pair && b.category == Pair && IsValid(a) && IsValid(b)
    requires a.cards[0].rank == b.cards[0].rank
    ensures Beats(a, b) <==> MaxSuit(a.cards) > MaxSuit(b.cards)
  {
    PairTopCard(a);
    PairTopCard(b);
    RankThenSuitRule(a, b);
  }

  /** A valid Triple of 2s beats a valid Triple of As. */
  lemma TriplesByGameRank(a: Hand, b: Hand)
    requires a.category == Triple && b.category == Triple && IsValid(a) && IsValid(b)
    requires a.cards[0].rank == 1 && b.cards[0].rank == 0
    ensures Beats(a, b)
  {
    var ta, tb := TopCard(a).value, TopCard(b).value;
    assert ta.rank == 1;
    assert tb.rank == 0;
  }
}
