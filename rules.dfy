/**
 * The move rules of BigTwo.checkMove as a transition on game states: which selections
 * are accepted on an empty table, by the owner of the top hand and by a challenger,
 * and what an accepted play or pass does to the players' cards, the table and the
 * current seat.
 */
module Rules {
  import opened Wrappers
  import opened Cards
  import opened Hands
  import opened Decks
  import HandProperties

  const NumPlayers := 4

  /** Every player's cards, the hands played so far (oldest first) and the seat to move. */
  datatype Game = Game(players: seq<seq<Card>>, table: seq<Hand>, current: int)

  predicate WellFormed(g: Game)
  {
    |g.players| == NumPlayers && 0 <= g.current < NumPlayers
  }

  /** endOfGame: the seat to move has no cards left. */
  predicate EndOfGame(g: Game)
    requires WellFormed(g)
  {
    |g.players[g.current]| == 0
  }

  /* ---------------- selecting and removing cards ---------------- */

  /**
   * A selection the interface can produce for a hand: none at all, or positions in
   * the hand in strictly increasing order.
   */
  predicate SelectionOk(hand: seq<Card>, sel: Option<seq<int>>)
  {
    match sel
    case None => true
    case Some(idx) =>
      (forall k :: 0 <= k < |idx| ==> 0 <= idx[k] < |hand|) &&
      (forall k, l :: 0 <= k < l < |idx| ==> idx[k] < idx[l])
  }

  /** CardGamePlayer.play: the cards at the selected positions, or nothing for no selection. */
  function Play(hand: seq<Card>, sel: Option<seq<int>>): Option<seq<Card>>
    requires SelectionOk(hand, sel)
  {
    match sel
    case None => None
    case Some(idx) => Some(seq(|idx|, k requires 0 <= k < |idx| => hand[idx[k]]))
  }

  /**
   * The played cards come from the hand, one per selected position; from a hand
   * without repeats they are themselves free of repeats and a sub-multiset of it.
   */
  lemma PlayTakesSelected(hand: seq<Card>, sel: Option<seq<int>>)
    requires SelectionOk(hand, sel)
    ensures Play(hand, sel).Some? <==> sel.Some?
    ensures sel.Some? ==> |Play(hand, sel).value| == |sel.value|
    ensures sel.Some? ==> forall c :: c in Play(hand, sel).value ==> c in hand
    ensures sel.Some? && Distinct(hand) ==>
      Distinct(Play(hand, sel).value) && multiset(Play(hand, sel).value) <= multiset(hand)
  {
    if sel.Some? {
      var cs := Play(hand, sel).value;
      forall c | c in cs
        ensures c in hand
      {
        var k :| 0 <= k < |cs| && cs[k] == c;
        assert hand[sel.value[k]] == c;
      }
      if Distinct(hand) {
        assert Distinct(cs);
        DistinctIffCountsAtMostOne(hand);
        DistinctIffCountsAtMostOne(cs);
        forall c
          ensures multiset(cs)[c] <= multiset(hand)[c]
        {
          if c in cs {
            assert c in hand;
          }
        }
      }
    }
  }

  /** CardList.removeCards: drop from `s` every card that occurs in `cs`. */
  function RemoveCards(s: seq<Card>, cs: seq<Card>): seq<Card>
  {
    if s == [] then []
    else if s[0] in cs then RemoveCards(s[1..], cs)
    else [s[0]] + RemoveCards(s[1..], cs)
  }

  /** After removal a removed card is gone and every other card keeps its count. */
  lemma {:induction false} RemoveCardsCount(s: seq<Card>, cs: seq<Card>, x: Card)
    ensures multiset(RemoveCards(s, cs))[x] == if x in cs then 0 else multiset(s)[x]
  {
    if s != [] {
      RemoveCardsCount(s[1..], cs, x);
      assert s == [s[0]] + s[1..];
    }
  }

  /**
   * Removing a repeat-free selection of a repeat-free hand leaves exactly the other
   * cards: what stays plus what was played is what the player held.
   */
  lemma RemovePlayed(s: seq<Card>, cs: seq<Card>)
    requires Distinct(s) && Distinct(cs)
    requires forall c :: c in cs ==> c in s
    ensures multiset(RemoveCards(s, cs)) + multiset(cs) == multiset(s)
  {
    DistinctIffCountsAtMostOne(s);
    DistinctIffCountsAtMostOne(cs);
    forall x
      ensures multiset(RemoveCards(s, cs))[x] + multiset(cs)[x] == multiset(s)[x]
    {
      RemoveCardsCount(s, cs, x);
      if x in cs {
        assert x in s;
      }
    }
  }

  /* ---------------- composing a hand ---------------- */

  /** The order in which composeHand tries the five-card classes. */
  const FiveCardOrder: seq<Category> := [StraightFlush, Quad, FullHouse, Flush, Straight]

  /** The first category in `order` the cards are valid for. */
  function FirstValid(order: seq<Category>, cs: seq<Card>): (r: Option<Category>)
    ensures r.Some? ==> r.value in order && IsValidCards(r.value, cs)
    ensures r.None? <==> forall c :: c in order ==> !IsValidCards(c, cs)
  {
    if order == [] then None
    else if IsValidCards(order[0], cs) then Some(order[0])
    else
      assert forall c :: c in order ==> c == order[0] || c in order[1..];
      FirstValid(order[1..], cs)
  }

  /** When the category at position j is valid, the search stops at position j or before. */
  lemma {:induction false} FirstValidUpTo(order: seq<Category>, cs: seq<Card>, j: int)
    requires 0 <= j < |order| && IsValidCards(order[j], cs)
    ensures FirstValid(order, cs).Some? && FirstValid(order, cs).value in order[..j + 1]
  {
    if IsValidCards(order[0], cs) {
      assert order[..j + 1][0] == order[0];
    } else {
      assert j > 0;
      var tail := order[1..];
      assert tail[j - 1] == order[j];
      FirstValidUpTo(tail, cs, j - 1);
      var x := FirstValid(tail, cs).value;
      var i :| 0 <= i < j && tail[..j][i] == x;
      assert order[..j + 1][i + 1] == x;
    }
  }

  /**
   * composeHand: by size, the one small category, or for five cards the first valid
   * class among StraightFlush, Quad, FullHouse, Flush, Straight. A five-card hand
   * keeps the sorted copy its isValid left behind.
   */
  function ComposeHand(owner: int, played: Option<seq<Card>>): Option<Hand>
  {
    match played
    case None => None
    case Some(cs) =>
      if |cs| == 1 then
        if IsValidCards(Single, cs) then Some(Hand(Single, owner, cs)) else None
      else if |cs| == 2 then
        if IsValidCards(Pair, cs) then Some(Hand(Pair, owner, cs)) else None
      else if |cs| == 3 then
        if IsValidCards(Triple, cs) then Some(Hand(Triple, owner, cs)) else None
      else if |cs| == 5 then
        match FirstValid(FiveCardOrder, cs)
        case Some(c) => Some(Hand(c, owner, SortCards(cs)))
        case None => None
      else None
  }

  /** Number of cards a hand of each category holds. */
  function HandSize(c: Category): nat
  {
    match c
    case Single => 1
    case Pair => 2
    case Triple => 3
    case _ => 5
  }

  lemma ValidHandSize(c: Category, cs: seq<Card>)
    ensures IsValidCards(c, cs) ==> |cs| == HandSize(c)
  {
  }

  /** A composed hand is valid, belongs to the player and holds exactly the played cards. */
  lemma ComposeHandSound(owner: int, played: Option<seq<Card>>)
    ensures ComposeHand(owner, played).Some? ==>
      played.Some? && IsValid(ComposeHand(owner, played).value) &&
      ComposeHand(owner, played).value.owner == owner &&
      multiset(ComposeHand(owner, played).value.cards) == multiset(played.value)
  {
    var r := ComposeHand(owner, played);
    if r.Some? {
      var cs := played.value;
      assert IsValidCards(r.value.category, cs);
      HandProperties.ValidityIgnoresOrder(r.value.category, owner, cs, r.value.cards);
    }
  }

  /** Categories listed from the strongest down. */
  predicate StrongestFirst(order: seq<Category>)
  {
    forall i, j :: 0 <= i < j < |order| ==> Strength(order[i]) >= Strength(order[j])
  }

  /** Searching a strongest-first order finds a category at least as strong as any valid one. */
  lemma {:induction false} FirstValidIsStrongest(order: seq<Category>, cs: seq<Card>, c: Category)
    requires StrongestFirst(order) && c in order && IsValidCards(c, cs)
    ensures FirstValid(order, cs).Some?
    ensures Strength(c) <= Strength(FirstValid(order, cs).value)
  {
    var k :| 0 <= k < |order| && order[k] == c;
    if !IsValidCards(order[0], cs) {
      var tail := order[1..];
      assert tail[k - 1] == c;
      assert StrongestFirst(tail) by {
        forall i, j | 0 <= i < j < |tail|
          ensures Strength(tail[i]) >= Strength(tail[j])
        {
          assert tail[i] == order[i + 1] && tail[j] == order[j + 1];
        }
      }
      FirstValidIsStrongest(tail, cs, c);
    } else if k > 0 {
      assert Strength(order[0]) >= Strength(order[k]);
    }
  }

  /** The five-card order lists every five-card category, strongest first. */
  lemma FiveCardOrderIsStrongestFirst()
    ensures StrongestFirst(FiveCardOrder)
    ensures forall c :: IsFiveCardCategory(c) ==> c in FiveCardOrder
  {
    var order := FiveCardOrder;
    forall i | 0 <= i < |order|
      ensures Strength(order[i]) == 4 - i
    {
      if i == 0 {} else if i == 1 {} else if i == 2 {} else if i == 3 {} else {}
    }
    forall c | IsFiveCardCategory(c)
      ensures c in order
    {
      assert order[4 - Strength(c)] == c;
    }
  }

  /** Trying the five-card classes in order finds the strongest class the cards form. */
  lemma FiveCardPicksStrongest(cs: seq<Card>, c: Category)
    requires IsValidCards(c, cs) && |cs| == 5
    ensures FirstValid(FiveCardOrder, cs).Some?
    ensures Strength(c) <= Strength(FirstValid(FiveCardOrder, cs).value)
  {
    FiveCardOrderIsStrongestFirst();
    assert IsFiveCardCategory(c);
    FirstValidIsStrongest(FiveCardOrder, cs, c);
  }

  /**
   * A hand is composed exactly when the played cards are valid for some category, and
   * the category chosen is the strongest one they are valid for.
   */
  lemma ComposeHandPicksStrongest(owner: int, played: Option<seq<Card>>)
    ensures ComposeHand(owner, played).Some? <==>
      played.Some? && exists c :: IsValidCards(c, played.value)
    ensures ComposeHand(owner, played).Some? ==>
      IsValidCards(ComposeHand(owner, played).value.category, played.value) &&
      forall c :: IsValidCards(c, played.value) ==>
        Strength(c) <= Strength(ComposeHand(owner, played).value.category)
  {
    if played.Some? {
      var cs := played.value;
      var r := ComposeHand(owner, played);
      forall c | IsValidCards(c, cs)
        ensures r.Some? && Strength(c) <= Strength(r.value.category)
      {
        ValidHandSize(c, cs);
        if |cs| == 5 {
          FiveCardPicksStrongest(cs, c);
        }
      }
      if r.Some? {
        assert IsValidCards(r.value.category, cs);
      }
    }
  }

  /* ---------------- the move rules ---------------- */

  /** What checkMove makes of a selection. */
  datatype Outcome = Played(hand: Hand) | Passed | Illegal

  /** The last hand on a non-empty table. */
  function Top(g: Game): Hand
    requires |g.table| > 0
  {
    g.table[|g.table| - 1]
  }

  /**
   * checkMove's decision. An empty table takes only a hand holding the three of
   * diamonds; the owner of the top hand may lead any hand but not pass; anyone else
   * may pass, or play a hand that beats the top hand.
   */
  function Judge(g: Game, playerIdx: int, sel: Option<seq<int>>): Outcome
    requires WellFormed(g) && playerIdx == g.current
    requires SelectionOk(g.players[playerIdx], sel)
  {
    var played := Play(g.players[playerIdx], sel);
    var hand := ComposeHand(playerIdx, played);
    if |g.table| == 0 then
      if hand.Some? && ThreeOfDiamonds in hand.value.cards then Played(hand.value) else Illegal
    else if Top(g).owner == g.current then
      if hand.Some? then Played(hand.value) else Illegal
    else if played.None? then Passed
    else if hand.Some? && Beats(hand.value, Top(g)) then Played(hand.value)
    else Illegal
  }

  /** Put an accepted hand on the table and take its cards from the player. */
  function Place(g: Game, playerIdx: int, h: Hand): Game
    requires 0 <= playerIdx < |g.players|
  {
    g.(players := g.players[playerIdx := RemoveCards(g.players[playerIdx], h.cards)],
       table := g.table + [h])
  }

  /** Hand the turn to the next seat, unless the game has ended. */
  function Advance(g: Game): Game
    requires WellFormed(g)
  {
    if EndOfGame(g) then g else g.(current := (g.current + 1) % NumPlayers)
  }

  /** What a decision does to the game: nothing, a pass, or a hand put on the table. */
  function Apply(g: Game, playerIdx: int, o: Outcome): Game
    requires WellFormed(g) && 0 <= playerIdx < NumPlayers
  {
    match o
    case Illegal => g
    case Passed => Advance(g)
    case Played(h) => Advance(Place(g, playerIdx, h))
  }

  /** The state after checkMove. */
  function Step(g: Game, playerIdx: int, sel: Option<seq<int>>): Game
    requires WellFormed(g) && playerIdx == g.current
    requires SelectionOk(g.players[playerIdx], sel)
  {
    Apply(g, playerIdx, Judge(g, playerIdx, sel))
  }

  /** The cards of the selection, or none. */
  function Selected(g: Game, sel: Option<seq<int>>): seq<Card>
    requires WellFormed(g) && SelectionOk(g.players[g.current], sel)
  {
    match Play(g.players[g.current], sel)
    case None => []
    case Some(cs) => cs
  }

  /** An accepted hand is the hand composed from the selected cards. */
  lemma PlayedIsComposed(g: Game, sel: Option<seq<int>>)
    requires WellFormed(g) && SelectionOk(g.players[g.current], sel)
    ensures Judge(g, g.current, sel).Played? ==>
      sel.Some? && ComposeHand(g.current, Play(g.players[g.current], sel)) == Some(Judge(g, g.current, sel).hand)
  {
  }

  /**
   * The selection forms a hand exactly when its cards are valid for some category,
   * and that hand holds the selected cards.
   */
  lemma SelectionComposes(g: Game, sel: Option<seq<int>>)
    requires WellFormed(g) && SelectionOk(g.players[g.current], sel)
    ensures var hand := ComposeHand(g.current, Play(g.players[g.current], sel));
      (hand.Some? <==> sel.Some? && exists c :: IsValidCards(c, Selected(g, sel))) &&
      (hand.Some? ==> forall x :: x in hand.value.cards <==> x in Selected(g, sel))
  {
    var played := Play(g.players[g.current], sel);
    var hand := ComposeHand(g.current, played);
    if sel.Some? {
      var cs := played.value;
      assert Selected(g, sel) == cs;
      ComposeHandPicksStrongest(g.current, played);
      if hand.Some? {
        ComposeHandSound(g.current, played);
        SameMembers(hand.value.cards, cs);
      }
    }
  }

  /**
   * On an empty table a selection is accepted iff its cards form a valid hand of some
   * category and include the three of diamonds; passing is never accepted.
   */
  lemma EmptyTableRule(g: Game, sel: Option<seq<int>>)
    requires WellFormed(g) && SelectionOk(g.players[g.current], sel) && |g.table| == 0
    ensures !Judge(g, g.current, sel).Passed?
    ensures Judge(g, g.current, sel).Played? <==>
      sel.Some? && (exists c :: IsValidCards(c, Selected(g, sel))) &&
      ThreeOfDiamonds in Selected(g, sel)
  {
    SelectionComposes(g, sel);
  }

  /**
   * When the top hand is the mover's own, any selection forming a valid hand is
   * accepted, with no comparison to the table, and passing is refused.
   */
  lemma LeaderRule(g: Game, sel: Option<seq<int>>)
    requires WellFormed(g) && SelectionOk(g.players[g.current], sel)
    requires |g.table| > 0 && Top(g).owner == g.current
    ensures !Judge(g, g.current, sel).Passed?
    ensures Judge(g, g.current, sel).Played? <==>
      sel.Some? && exists c :: IsValidCards(c, Selected(g, sel))
  {
    SelectionComposes(g, sel);
  }

  /**
   * Facing another player's hand, the mover passes by selecting nothing, and a
   * selection is accepted iff the hand it forms beats the top hand.
   */
  lemma ChallengerRule(g: Game, sel: Option<seq<int>>)
    requires WellFormed(g) && SelectionOk(g.players[g.current], sel)
    requires |g.table| > 0 && Top(g).owner != g.current
    ensures Judge(g, g.current, sel).Passed? <==> sel.None?
    ensures Judge(g, g.current, sel).Played? ==>
      Beats(Judge(g, g.current, sel).hand, Top(g)) &&
      |Judge(g, g.current, sel).hand.cards| == |Top(g).cards|
    ensures Judge(g, g.current, sel).Played? <==>
      sel.Some? && exists h :: ComposeHand(g.current, Play(g.players[g.current], sel)) == Some(h) && Beats(h, Top(g))
  {
    var played := Play(g.players[g.current], sel);
    var hand := ComposeHand(g.current, played);
    if Judge(g, g.current, sel).Played? {
      HandProperties.BeatsNeedsValidSameSize(hand.value, Top(g));
    }
  }

  /**
   * An accepted hand is valid, is the mover's, holds exactly the selected cards and is
   * of the strongest category those cards form.
   */
  lemma PlayedHandIsComposed(g: Game, sel: Option<seq<int>>)
    requires WellFormed(g) && SelectionOk(g.players[g.current], sel)
    ensures Judge(g, g.current, sel).Played? ==>
      var h := Judge(g, g.current, sel).hand;
      sel.Some? && IsValid(h) && h.owner == g.current &&
      multiset(h.cards) == multiset(Selected(g, sel)) &&
      forall c :: IsValidCards(c, Selected(g, sel)) ==> Strength(c) <= Strength(h.category)
  {
    PlayedIsComposed(g, sel);
    var played := Play(g.players[g.current], sel);
    ComposeHandSound(g.current, played);
    ComposeHandPicksStrongest(g.current, played);
  }

  /**
   * A rejected move changes nothing. A pass keeps all cards where they are. A play
   * appends exactly one hand to the table and changes only the mover's cards.
   */
  lemma StepEffects(g: Game, sel: Option<seq<int>>)
    requires WellFormed(g) && SelectionOk(g.players[g.current], sel)
    ensures var o, g' := Judge(g, g.current, sel), Step(g, g.current, sel);
      WellFormed(g') &&
      (o.Illegal? ==> g' == g) &&
      (o.Passed? ==> g'.players == g.players && g'.table == g.table) &&
      (o.Played? ==>
        g'.table == g.table + [o.hand] &&
        forall p :: 0 <= p < NumPlayers && p != g.current ==> g'.players[p] == g.players[p])
  {
    ApplyEffects(g, Judge(g, g.current, sel));
  }

  /**
   * After an accepted play or pass the turn moves to the next seat mod 4, except that
   * it stays with a mover who has just emptied their hand, which ends the game.
   */
  lemma SeatAdvance(g: Game, sel: Option<seq<int>>)
    requires WellFormed(g) && SelectionOk(g.players[g.current], sel)
    ensures var g' := Step(g, g.current, sel);
      !Judge(g, g.current, sel).Illegal? ==>
        g'.current == (if |g'.players[g.current]| == 0 then g.current else (g.current + 1) % NumPlayers)
  {
    ApplyEffects(g, Judge(g, g.current, sel));
  }

  /** The effects of each kind of decision by the mover, whatever the decision was. */
  lemma ApplyEffects(g: Game, o: Outcome)
    requires WellFormed(g)
    ensures var g' := Apply(g, g.current, o);
      WellFormed(g') &&
      (o.Illegal? ==> g' == g) &&
      (o.Passed? ==> g'.players == g.players && g'.table == g.table) &&
      (o.Played? ==>
        g'.table == g.table + [o.hand] &&
        g'.players == g.players[g.current := RemoveCards(g.players[g.current], o.hand.cards)]) &&
      (!o.Illegal? ==>
        g'.current == (if |g'.players[g.current]| == 0 then g.current else (g.current + 1) % NumPlayers))
  {
    if o.Played? {
      AdvanceSeat(Place(g, g.current, o.hand));
    } else if o.Passed? {
      AdvanceSeat(g);
    }
  }

  /** Advance keeps every player's cards and moves on unless the mover has none left. */
  lemma AdvanceSeat(g: Game)
    requires WellFormed(g)
    ensures Advance(g).players == g.players && Advance(g).table == g.table
    ensures WellFormed(Advance(g))
    ensures Advance(g).current ==
      if |g.players[g.current]| == 0 then g.current else (g.current + 1) % NumPlayers
  {
  }

  /* ---------------- conservation ---------------- */

  /** All cards held by the players. */
  function PlayersCards(ps: seq<seq<Card>>): multiset<Card>
  {
    if ps == [] then multiset{} else PlayersCards(ps[..|ps| - 1]) + multiset(ps[|ps| - 1])
  }

  /** All cards on the table. */
  function TableCards(t: seq<Hand>): multiset<Card>
  {
    if t == [] then multiset{} else TableCards(t[..|t| - 1]) + multiset(t[|t| - 1].cards)
  }

  /** Every card in the game, in hands or on the table. */
  function TotalCards(g: Game): multiset<Card>
  {
    PlayersCards(g.players) + TableCards(g.table)
  }

  /** Replacing one player's cards changes the total by exactly that difference. */
  lemma {:induction false} PlayersCardsUpdate(ps: seq<seq<Card>>, p: int, cards: seq<Card>)
    requires 0 <= p < |ps|
    ensures PlayersCards(ps[p := cards]) + multiset(ps[p]) == PlayersCards(ps) + multiset(cards)
  {
    var n := |ps|;
    var qs := ps[p := cards];
    if p == n - 1 {
      assert qs[..n - 1] == ps[..n - 1];
    } else {
      assert qs[..n - 1] == ps[..n - 1][p := cards];
      assert qs[n - 1] == ps[n - 1];
      PlayersCardsUpdate(ps[..n - 1], p, cards);
      var a, b := PlayersCards(qs[..n - 1]), PlayersCards(ps[..n - 1]);
      assert PlayersCards(qs) == a + multiset(ps[n - 1]);
      assert PlayersCards(ps) == b + multiset(ps[n - 1]);
      assert ps[..n - 1][p] == ps[p];
      assert a + multiset(ps[p]) == b + multiset(cards);
      forall x
        ensures PlayersCards(qs)[x] + multiset(ps[p])[x] == PlayersCards(ps)[x] + multiset(cards)[x]
      {
        assert (a + multiset(ps[p]))[x] == (b + multiset(cards))[x];
      }
    }
  }

  /** Each player's cards are among all the players' cards. */
  lemma {:induction false} PlayerWithinAll(ps: seq<seq<Card>>, p: int)
    requires 0 <= p < |ps|
    ensures multiset(ps[p]) <= PlayersCards(ps)
  {
    var n := |ps|;
    if p < n - 1 {
      PlayerWithinAll(ps[..n - 1], p);
    }
  }

  /** Placing a hand whose cards leave the player's hand keeps the total. */
  lemma PlaceKeepsTotal(g: Game, p: int, h: Hand)
    requires 0 <= p < |g.players|
    requires multiset(RemoveCards(g.players[p], h.cards)) + multiset(h.cards) == multiset(g.players[p])
    ensures TotalCards(Place(g, p, h)) == TotalCards(g)
  {
    var placed := Place(g, p, h);
    var rest := RemoveCards(g.players[p], h.cards);
    PlayersCardsUpdate(g.players, p, rest);
    assert placed.players == g.players[p := rest];
    assert (g.table + [h])[..|g.table|] == g.table;
    assert TableCards(placed.table) == TableCards(g.table) + multiset(h.cards);
    forall x
      ensures TotalCards(placed)[x] == TotalCards(g)[x]
    {
      assert (PlayersCards(placed.players) + multiset(g.players[p]))[x] ==
        (PlayersCards(g.players) + multiset(rest))[x];
      assert (multiset(rest) + multiset(h.cards))[x] == multiset(g.players[p])[x];
    }
  }

  /**
   * checkMove neither creates nor loses cards: when the mover holds no card twice,
   * the cards in hands and on the table are the same before and after.
   */
  lemma StepConservesCards(g: Game, sel: Option<seq<int>>)
    requires WellFormed(g) && SelectionOk(g.players[g.current], sel)
    requires Distinct(g.players[g.current])
    ensures TotalCards(Step(g, g.current, sel)) == TotalCards(g)
  {
    var p := g.current;
    var o := Judge(g, p, sel);
    if o.Played? {
      var h := o.hand;
      var s := g.players[p];
      var played := Play(s, sel);
      PlayedIsComposed(g, sel);
      PlayTakesSelected(s, sel);
      ComposeHandSound(p, played);
      DistinctPermutation(played.value, h.cards);
      SameMembers(played.value, h.cards);
      RemovePlayed(s, h.cards);
      PlaceKeepsTotal(g, p, h);
      AdvanceSeat(Place(g, p, h));
    }
  }

  /**
   * The game invariant: four seats, a valid table of hands played from those seats,
   * and exactly the 52 cards of the deck spread over hands and table.
   */
  predicate Inv(g: Game)
  {
    WellFormed(g) &&
    (forall i :: 0 <= i < |g.table| ==> IsValid(g.table[i]) && 0 <= g.table[i].owner < NumPlayers) &&
    TotalCards(g) == multiset(StandardDeck())
  }

  /** Under the invariant no player holds a card twice. */
  lemma InvHandsDistinct(g: Game, p: int)
    requires Inv(g) && 0 <= p < NumPlayers
    ensures Distinct(g.players[p])
  {
    PlayerWithinAll(g.players, p);
    DistinctIffCountsAtMostOne(g.players[p]);
    forall c
      ensures multiset(g.players[p])[c] <= 1
    {
      DeckHoldsEveryCardOnce(c);
    }
  }

  /** Every move, accepted or not, keeps the invariant. */
  lemma StepKeepsInv(g: Game, sel: Option<seq<int>>)
    requires Inv(g) && SelectionOk(g.players[g.current], sel)
    ensures Inv(Step(g, g.current, sel))
  {
    InvHandsDistinct(g, g.current);
    StepConservesCards(g, sel);
    PlayedHandIsComposed(g, sel);
    ApplyKeepsInv(g, Judge(g, g.current, sel));
  }

  /** A decision that keeps the cards and only ever tables a valid hand of the mover keeps the invariant. */
  lemma ApplyKeepsInv(g: Game, o: Outcome)
    requires Inv(g)
    requires TotalCards(Apply(g, g.current, o)) == TotalCards(g)
    requires o.Played? ==> IsValid(o.hand) && o.hand.owner == g.current
    ensures Inv(Apply(g, g.current, o))
  {
    ApplyEffects(g, o);
    var g' := Apply(g, g.current, o);
    if o.Played? {
      forall i | 0 <= i < |g'.table|
        ensures IsValid(g'.table[i]) && 0 <= g'.table[i].owner < NumPlayers
      {
        if i < |g.table| {
          assert g'.table[i] == g.table[i];
        }
      }
    }
  }
}
