/** An optional value standing in for Java's nullable references. */
module Wrappers {
  datatype Option<T> = None | Some(value: T)
}

/**
 * Cards of the Big Two game and their game order (BigTwoCard.compareTo), together with
 * the sorted-copy operation every hand test relies on (CardList.sort, which orders
 * cards by compareTo).
 */
module Cards {

  /** Suit index: 0 = diamonds, 1 = clubs, 2 = hearts, 3 = spades. */
  type Suit = s: int | 0 <= s < 4

  /** Rank index: 0 = A, 1 = 2, 2 = 3, ..., 9 = 10, 10 = J, 11 = Q, 12 = K. */
  type Rank = r: int | 0 <= r < 13

  datatype Card = Card(suit: Suit, rank: Rank)

  /** The three of diamonds, which must open every round. */
  const ThreeOfDiamonds := Card(0, 2)

  /** Rank used in play: 3..K keep their index, A counts as 13 and 2 as 14. */
  function GameRank(r: Rank): int
  {
    if r == 0 || r == 1 then r + 13 else r
  }

  /** Game rank and suit packed into one integer, compared lexicographically. */
  function Key(c: Card): int
  {
    4 * GameRank(c.rank) + c.suit
  }

  /**
   * BigTwoCard.compareTo: 1, 0 or -1 as `a` is above, equal to or below `b` in the
   * order 3 < 4 < ... < K < A < 2, ties on rank broken by suit.
   */
  function CompareTo(a: Card, b: Card): (r: int)
    ensures r == 0 <==> a == b
    ensures r == 1 <==> Key(a) > Key(b)
    ensures r == -1 <==> Key(a) < Key(b)
  {
    if (a.rank >= 2 && b.rank >= 2) || (a.rank < 2 && b.rank < 2) then
      if a.rank > b.rank then 1
      else if a.rank < b.rank then -1
      else if a.suit > b.suit then 1
      else if a.suit < b.suit then -1
      else 0
    else if a.rank < 2 && b.rank >= 2 then 1
    else if a.rank >= 2 && b.rank < 2 then -1
    else 0
  }

  /** compareTo is the lexicographic order on (game rank, suit). */
  lemma CompareIsLexicographic(a: Card, b: Card)
    ensures CompareTo(a, b) == 1 <==>
      GameRank(a.rank) > GameRank(b.rank) || (GameRank(a.rank) == GameRank(b.rank) && a.suit > b.suit)
    ensures CompareTo(a, b) == -1 <==>
      GameRank(a.rank) < GameRank(b.rank) || (GameRank(a.rank) == GameRank(b.rank) && a.suit < b.suit)
  {
  }

  lemma CompareAntisymmetric(a: Card, b: Card)
    ensures CompareTo(a, b) == -CompareTo(b, a)
  {
  }

  lemma CompareTransitive(a: Card, b: Card, c: Card)
    requires CompareTo(a, b) > 0 && CompareTo(b, c) > 0
    ensures CompareTo(a, c) > 0
  {
  }

  /** An A or a 2 is above every card of rank 3..K, whatever the suits. */
  lemma AceAndTwoOutrankOthers(a: Card, b: Card)
    requires a.rank < 2 && b.rank >= 2
    ensures CompareTo(a, b) == 1 && CompareTo(b, a) == -1
  {
  }

  /** A 2 is above an A; cards of one rank are ordered by suit index. */
  lemma TwoAboveAceAndSuitTieBreak(a: Card, b: Card)
    ensures a.rank == 1 && b.rank == 0 ==> CompareTo(a, b) == 1
    ensures a.rank == b.rank ==> (CompareTo(a, b) == 1 <==> a.suit > b.suit)
  {
  }

  /** Different cards have different keys. */
  lemma KeyInjective(a: Card, b: Card)
    ensures a != b ==> Key(a) != Key(b)
  {
    if GameRank(a.rank) < GameRank(b.rank) {
      assert Key(a) < Key(b);
    } else if GameRank(a.rank) > GameRank(b.rank) {
      assert Key(a) > Key(b);
    }
  }

  /** Sorted in game order, as CardList.sort leaves a list. */
  predicate Sorted(s: seq<Card>)
  {
    forall i, j :: 0 <= i < j < |s| ==> Key(s[i]) <= Key(s[j])
  }

  /** Sorted means no card is followed by one that compareTo puts below it. */
  lemma SortedByCompareTo(s: seq<Card>)
    ensures Sorted(s) <==> forall i, j :: 0 <= i < j < |s| ==> CompareTo(s[i], s[j]) <= 0
  {
  }

  /** No card occurs twice. */
  predicate Distinct(s: seq<Card>)
  {
    forall i, j :: 0 <= i < j < |s| ==> s[i] != s[j]
  }

  /** A card at or below every card of a sorted list may go in front of it. */
  lemma SortedCons(x: Card, t: seq<Card>)
    requires Sorted(t) && forall k :: 0 <= k < |t| ==> Key(x) <= Key(t[k])
    ensures Sorted([x] + t)
  {
  }

  /** Insertion of one card into a sorted list, before the first card not below it. */
  function Insert(c: Card, s: seq<Card>): (r: seq<Card>)
    requires Sorted(s)
    ensures Sorted(r)
    ensures multiset(r) == multiset(s) + multiset{c}
    ensures |r| == |s| + 1
  {
    if s == [] then [c]
    else if CompareTo(c, s[0]) <= 0 then
      SortedCons(c, s);
      [c] + s
    else
      assert Key(s[0]) < Key(c);
      assert s == [s[0]] + s[1..];
      var rest := Insert(c, s[1..]);
      assert forall k :: 0 <= k < |rest| ==> Key(s[0]) <= Key(rest[k]) by {
        forall k | 0 <= k < |rest|
          ensures Key(s[0]) <= Key(rest[k])
        {
          assert rest[k] in multiset(rest);
          if rest[k] != c {
            assert rest[k] in multiset(s[1..]);
            FirstOfSortedIsLeast(s, rest[k]);
          }
        }
      }
      SortedCons(s[0], rest);
      [s[0]] + rest
  }

  /** The sorted copy of a card list: a permutation of it in ascending game order. */
  function SortCards(s: seq<Card>): (r: seq<Card>)
    ensures Sorted(r)
    ensures multiset(r) == multiset(s)
    ensures |r| == |s|
  {
    if s == [] then []
    else
      assert s == [s[0]] + s[1..];
      Insert(s[0], SortCards(s[1..]))
  }

  /** The first card of a sorted list is at or below every card in it. */
  lemma FirstOfSortedIsLeast(s: seq<Card>, x: Card)
    requires Sorted(s) && x in s
    ensures Key(s[0]) <= Key(x)
  {
    var i :| 0 <= i < |s| && s[i] == x;
  }

  /** The last card of a sorted list is at or above every card in it. */
  lemma LastOfSortedIsGreatest(s: seq<Card>, x: Card)
    requires Sorted(s) && x in s
    ensures Key(x) <= Key(s[|s| - 1])
  {
    var i :| 0 <= i < |s| && s[i] == x;
  }

  /** Removing one equal head from two lists with the same cards leaves the same cards. */
  lemma TailsSameCards(s: seq<Card>, t: seq<Card>)
    requires |s| > 0 && |t| > 0 && s[0] == t[0] && multiset(s) == multiset(t)
    ensures multiset(s[1..]) == multiset(t[1..])
  {
    assert s == [s[0]] + s[1..];
    assert t == [t[0]] + t[1..];
    assert multiset(s) == multiset([s[0]]) + multiset(s[1..]);
    assert multiset(t) == multiset([t[0]]) + multiset(t[1..]);
    forall x
      ensures multiset(s[1..])[x] == multiset(t[1..])[x]
    {
      assert multiset(s)[x] == multiset([s[0]])[x] + multiset(s[1..])[x];
      assert multiset(t)[x] == multiset([t[0]])[x] + multiset(t[1..])[x];
    }
  }

  /** Two sorted non-empty lists holding the same cards start with the same card. */
  lemma SortedSameHead(s: seq<Card>, t: seq<Card>)
    requires Sorted(s) && Sorted(t) && multiset(s) == multiset(t) && |s| > 0 && |t| > 0
    ensures s[0] == t[0]
  {
    SameMembers(s, t);
    assert s[0] in s && t[0] in t;
    FirstOfSortedIsLeast(t, s[0]);
    FirstOfSortedIsLeast(s, t[0]);
  }

  /** Two sorted lists holding the same cards are the same list. */
  lemma {:induction false} SortedUnique(s: seq<Card>, t: seq<Card>)
    requires Sorted(s) && Sorted(t) && multiset(s) == multiset(t)
    ensures s == t
  {
    assert |t| == |s| by { assert |multiset(t)| == |multiset(s)|; }
    if s != [] {
      SortedSameHead(s, t);
      TailsSameCards(s, t);
      SortedUnique(s[1..], t[1..]);
      assert s == [s[0]] + s[1..];
      assert t == [t[0]] + t[1..];
    }
  }

  /** The sorted copy depends only on which cards are present, not on their order. */
  lemma SortPermutationInvariant(s: seq<Card>, t: seq<Card>)
    requires multiset(s) == multiset(t)
    ensures SortCards(s) == SortCards(t)
  {
    SortedUnique(SortCards(s), SortCards(t));
  }

  /** Sorting an already sorted list changes nothing, so sorting twice is sorting once. */
  lemma SortIdempotent(s: seq<Card>)
    ensures Sorted(s) ==> SortCards(s) == s
    ensures SortCards(SortCards(s)) == SortCards(s)
  {
    if Sorted(s) {
      SortedUnique(SortCards(s), s);
    }
    SortedUnique(SortCards(SortCards(s)), SortCards(s));
  }

  /** The last card of a non-empty sorted copy is the largest card of the list. */
  lemma LastOfSortedIsMax(s: seq<Card>)
    requires |s| > 0
    ensures SortCards(s)[|s| - 1] in s
    ensures forall c :: c in s ==> CompareTo(c, SortCards(s)[|s| - 1]) <= 0
  {
    var t := SortCards(s);
    SameMembers(s, t);
    assert t[|s| - 1] in t;
    forall c | c in s
      ensures CompareTo(c, t[|s| - 1]) <= 0
    {
      LastOfSortedIsGreatest(t, c);
    }
  }

  /** Membership survives any reordering. */
  lemma SameMembers(s: seq<Card>, t: seq<Card>)
    requires multiset(s) == multiset(t)
    ensures forall c :: c in s <==> c in t
  {
    forall c
      ensures c in s <==> c in t
    {
      assert c in s <==> c in multiset(s);
      assert c in t <==> c in multiset(t);
    }
  }

  /** A list without repeated cards holds each card at most once, and conversely. */
  lemma {:induction false} DistinctIffCountsAtMostOne(s: seq<Card>)
    ensures Distinct(s) <==> forall c :: multiset(s)[c] <= 1
  {
    if s == [] {
    } else {
      assert s == [s[0]] + s[1..];
      DistinctIffCountsAtMostOne(s[1..]);
      if Distinct(s) {
        assert s[0] !in s[1..];
        forall c
          ensures multiset(s)[c] <= 1
        {
          assert multiset(s)[c] == multiset([s[0]])[c] + multiset(s[1..])[c];
        }
      }
      if forall c :: multiset(s)[c] <= 1 {
        forall i, j | 0 <= i < j < |s|
          ensures s[i] != s[j]
        {
          assert s == s[..j] + s[j..];
          assert s[i] in s[..j];
          assert s[j] in s[j..];
          assert multiset(s)[s[i]] == multiset(s[..j])[s[i]] + multiset(s[j..])[s[i]];
        }
      }
    }
  }

  /** Reordering keeps a list free of repeated cards. */
  lemma DistinctPermutation(s: seq<Card>, t: seq<Card>)
    requires multiset(s) == multiset(t) && Distinct(s)
    ensures Distinct(t)
  {
    DistinctIffCountsAtMostOne(s);
    DistinctIffCountsAtMostOne(t);
  }
}
