# Big Two rules engine in Dafny

This project models the rules engine of a four-player Big Two card game. It covers five parts:

- **Card order.** `BigTwoCard.compareTo` orders cards 3 < 4 < … < K < A < 2. Ties on rank go to the suit, in the order ♦ < ♣ < ♥ < ♠.
- **The eight hand classes.** These are Single, Pair, Triple, Straight, Flush, FullHouse, Quad and StraightFlush. For each class the model covers its validity test, its top card and its `beats` rule. The source dispatches to these through method overriding.
- **`BigTwo.composeHand`.** It turns a selection of cards into the strongest hand they form.
- **The turn state machine of `BigTwo.checkMove`.** Leading with the three of diamonds; the owner of the top hand leading anew; challengers passing or beating the top hand; the seat advancing mod 4 until a player runs out of cards.
- **Setting up a game.** `BigTwoDeck.initialize` and `BigTwo.start`, plus the two selection helpers of the game window that produce `checkMove`'s input.

Modules, one file each:

| file | module | contents |
|---|---|---|
| `cards.dfy` | `Wrappers`, `Cards` | `Option`; cards, `compareTo`, the sorted copy of a card list |
| `hands.dfy` | `Hands` | categories, validity tests, top cards and `beats`, as values |
| `hand_properties.dfy` | `HandProperties` | what the tests and `beats` mean |
| `hand_object.dfy` | `HandObjects` | the hand object whose methods sort its list in place |
| `deck.dfy` | `Decks` | the 52-card deck and its `initialize` |
| `rules.dfy` | `Rules` | `composeHand` and `checkMove` as functions on game states |
| `dealing.dfy` | `Dealing` | `start` as a function of the deck |
| `game.dfy` | `Games` | the `BigTwo` object, whose methods update its fields in place |
| `gui.dfy` | `Gui` | the card-selection flags of the game window |

How the model is built:

- A card is a (suit 0..3, rank 0..12) pair. Rank 0 is the A and rank 1 is the 2.
- The game order is the integer key `4 * GameRank(rank) + suit`, where `GameRank` sends A to 13 and 2 to 14.
- The hand classes are one datatype `Hand(category, owner, cards)`. `Beats` branches on the challenger's category, just as the source dispatches on the challenger object.
- The in-place sorting is modelled by the class `HandObjects.HandObject`. It sorts the list in place inside `getTopCard`, and inside `isValid` for the five-card classes. Each of its methods is proved against the value functions.
- The game object `Games.BigTwo` holds the players' card lists, the table and the current seat. Each method is proved to produce exactly the state given by the transition functions `Rules.Step` and `Dealing.StartState`.
- The lemmas about those functions carry the game's guarantees:
  - no card is created or lost;
  - a rejected move changes nothing;
  - the game invariant holds from the start onwards.

## Model

| member | source | states |
|---|---|---|
| Cards.CompareTo | BigTwoCard.java:28-50 | 0 exactly for the same card; 1 exactly when the first card is higher in game order; -1 exactly when it is lower |
| Cards.CompareIsLexicographic | BigTwoCard.java:29-49 | compareTo is lexicographic on (remapped rank with A=13 and 2=14, suit) |
| Cards.CompareAntisymmetric | BigTwoCard.java:29-49 | compareTo(a, b) == -compareTo(b, a) for all cards |
| Cards.CompareTransitive | BigTwoCard.java:28-50 | a > b and b > c give a > c, so compareTo is a strict total order |
| Cards.KeyInjective | BigTwoCard.java:28-50 | two different cards never take the same place in game order, so compareTo gives 0 only for the same card |
| Cards.AceAndTwoOutrankOthers | BigTwoCard.java:43-47 | an A or a 2 is above every card of rank 3..K, whatever the suits |
| Cards.TwoAboveAceAndSuitTieBreak | BigTwoCard.java:29-41 | a 2 is above an A; between cards of one rank, the higher suit index wins exactly |
| Cards.SortedByCompareTo | BigTwoCard.java:28-50 | the sort order is the compareTo order: no card is followed by one compareTo places below it |
| Cards.Insert | Hand.java:45 | inserting into a sorted list gives a sorted list with exactly one more copy of the card |
| Cards.SortedCons | Hand.java:45 | a card at or below every card of a sorted list can be put in front and the list stays sorted |
| Cards.SortCards | Straight.java:82 | the sorted copy is in game order and is a permutation of the list |
| Cards.SortedUnique | Straight.java:82 | two sorted lists holding the same cards are equal, so the sort's result is unique |
| Cards.SortPermutationInvariant | Straight.java:82 | the sorted copy depends only on which cards are held, not on their order |
| Cards.SortIdempotent | Hand.java:45 | sorting a sorted list changes nothing, so a second getTopCard sort is a no-op |
| Cards.LastOfSortedIsMax | Hand.java:43-51 | the last card of the sorted copy is in the list and is at or above every card in it under compareTo |
| Cards.FirstOfSortedIsLeast | Straight.java:82 | the first card of a sorted list is its lowest card |
| Cards.LastOfSortedIsGreatest | Straight.java:82 | the last card of a sorted list is its highest card |
| Cards.SameMembers | Straight.java:82 | reordering keeps exactly the same cards |
| Cards.DistinctIffCountsAtMostOne | BigTwoDeck.java:16-21 | a list has no repeated card iff it holds every card at most once |
| Cards.DistinctPermutation | BigTwo.java:166-168 | reordering a list keeps it free of repeated cards |
| Hands.TypeNameInjective | Hand.java:60 | two getType names are equal iff the categories are, so comparing names is comparing categories |
| Hands.TypeName | Hand.java:105 | the getType name of each class: "Single", "Pair", "Triple", "Straight", "Flush", "FullHouse", "Quad", "StraightFlush" |
| Hands.IndexOf | Straight.java:61-67 | the first position of the name, or -1 exactly when the name is absent |
| Hands.Size5Index | Straight.java:61-67 | the position of a class's getType name in the list Straight, Flush, FullHouse, Quad, StraightFlush, or -1 |
| Hands.Size5IndexIsStrength | Straight.java:61-67 | the Size5 position of a category is its strength Straight 0 < Flush 1 < FullHouse 2 < Quad 3 < StraightFlush 4; it is -1 exactly for Single, Pair and Triple |
| Hands.IsValidCards | Straight.java:77-102 | isValid of each class: Single one card; Pair and Triple two or three cards of one rank in list order; the five-card classes test positions of the sorted five cards (consecutive ranks, one suit, a 3+2 or 4+1 rank split, or both straight and one suit) |
| Hands.TopCard | Hand.java:43-51 | a valid hand has a top card, and it is one of its cards; an empty hand has none |
| Hands.TopOfSorted | Flush.java:54-73 | getTopCard of each class read from the sorted list: Flush gives the fifth card when the five suits agree, FullHouse and Quad the card that ends the larger rank group, every other class the last card; none for an empty list or a failed pattern |
| Hands.TopBeats | Hand.java:64-89 | the same-class rule on two top cards: Flush compares suit and then remapped rank, FullHouse and Quad only the remapped rank, the other classes remapped rank and then suit; a missing top card never wins |
| Hands.Beats | Hand.java:59-91 | beats as the challenger's class defines it: both hands valid; Single, Pair and Triple need the same class; five-card classes need five cards each and compare classes by their Size5 position before any top card |
| HandProperties.SmallHandsBySize | Single.java:24-31 | Single is valid iff it holds exactly one card, with no rank or suit condition; Pair and Triple are valid iff two or three cards share one rank |
| HandProperties.ValidityIgnoresOrder | Pair.java:24-38 | every class's test and its top card depend only on which cards are held |
| HandProperties.TestIgnoresOrder | Pair.java:24-38 | each class's validity test gives the same verdict on any reordering of the cards |
| HandProperties.TopCardIgnoresOrder | Hand.java:43-51 | the top card is the same for any reordering of the cards |
| HandProperties.SameRankIgnoresOrder | Pair.java:24-38 | all cards share one rank in a list iff they do in any reordering of it |
| HandProperties.StraightRanksAreWindow | Straight.java:90-97 | on a sorted list, the three rank patterns hold exactly on five consecutive game ranks |
| HandProperties.StraightIsWindow | Straight.java:77-102 | a valid Straight is exactly five cards whose sorted game ranks are five consecutive steps of 3 < … < K < A < 2 |
| HandProperties.NoStraightHoldsTwoAndThree | Straight.java:83-100 | no valid Straight holds both a 2 and a 3, so A-2-3-4-5 and 2-3-4-5-6 are rejected |
| HandProperties.StraightFlushIsStraightAndFlush | StraightFlush.java:25-52 | a StraightFlush is valid iff the cards are both a valid Straight and a valid Flush |
| HandProperties.QuadAndFullHouseDisjoint | Quad.java:37-39 | the Quad and FullHouse patterns never hold on the same sorted list |
| HandProperties.FiveCardCategoriesExclusive | BigTwo.java:396-425 | five different cards pass at most one five-card test, except that a StraightFlush also passes Straight and Flush |
| HandProperties.TopCardIsHighest | Hand.java:43-51 | for any non-empty Single, Pair, Triple, Straight or StraightFlush, valid or not, and for a valid Flush, the top card is the highest card in game order |
| HandProperties.FlushTopSuitIsFlushSuit | Flush.java:54-73 | every card of a valid Flush has the suit of its top card |
| HandProperties.FullHouseTopIsTripleRank | FullHouse.java:54-79 | the top card of a valid FullHouse has the rank held three times, and another rank is held twice |
| HandProperties.QuadTopIsQuadRank | Quad.java:54-79 | the top card of a valid Quad has the rank held four times |
| HandProperties.FlushIsOneSuit | Flush.java:25-46 | five cards are a valid Flush iff all of them share one suit |
| HandProperties.SortedTripleAndPair | FullHouse.java:25-46 | a sorted list of three cards of one rank and two of another matches one of the two FullHouse patterns |
| HandProperties.FullHouseIsTripleAndPair | FullHouse.java:25-46 | five cards are a valid FullHouse iff they hold three cards of one rank and two of another |
| HandProperties.SortedFourOfARank | Quad.java:25-46 | a sorted list with four cards of one rank matches one of the two Quad patterns |
| HandProperties.QuadIsFourOfARank | Quad.java:25-46 | five cards are a valid Quad iff four of them share one rank |
| HandProperties.BeatsNeedsValidSameSize | Straight.java:27-29 | beats never holds unless both hands are valid and have the same size |
| HandProperties.SmallHandsNeedSameCategory | Hand.java:59-61 | a Single, Pair or Triple never beats a hand of another category |
| HandProperties.RankThenSuitRule | Hand.java:64-89 | for Single, Pair, Triple, Straight and StraightFlush of one category, a hand wins iff its top card has a higher remapped rank, or an equal rank and a higher suit |
| HandProperties.FlushSuitFirstRule | Flush.java:100-112 | Flush against Flush: a higher top suit wins and a lower one loses; only an equal suit goes to the remapped rank |
| HandProperties.GroupRankRule | FullHouse.java:93-110 | FullHouse against FullHouse and Quad against Quad: only a strictly higher remapped rank wins, with no suit tie-break |
| HandProperties.CategoryStrengthRule | Flush.java:116-123 | between valid five-card hands of different categories, the challenger wins iff its category is stronger |
| HandProperties.StraightFlushBeatsOtherFiveCardHands | StraightFlush.java:94-100 | a valid StraightFlush beats every valid five-card hand of another category |
| HandProperties.StraightBeatsNoOtherCategory | Straight.java:61-67 | a Straight beats no hand of another category |
| HandProperties.BeatsIrreflexive | Flush.java:100-112 | no hand beats itself |
| HandProperties.BeatsAsymmetric | Hand.java:76-89 | if a beats b then b does not beat a |
| HandProperties.SinglesFollowCompareTo | Hand.java:64-89 | one valid Single beats another exactly when compareTo puts its card above the other's |
| HandProperties.PairTopCard | Pair.java:45-47 | the top card of a valid Pair has the pair's rank and the higher of its two suits |
| HandProperties.PairsOfOneRankBySuit | Pair.java:45-47 | of two valid Pairs of one rank, the Pair holding the higher suit wins |
| HandProperties.TriplesByGameRank | Triple.java:46-48 | a valid Triple of 2s beats a valid Triple of As |
| HandObjects.NonNullKeepsCards | Hand.java:18-26 | the kept cards are exactly the non-null input cards, never more than the input; a list without nulls is copied position by position |
| HandObjects.SameCardsSameVerdict | Hand.java:43-51 | reordering a hand's cards changes neither its validity, its size nor its top card |
| HandObjects.SortedKeptIsSortedCopy | Hand.java:45 | a list that keeps its cards and ends sorted is exactly the sorted copy of the old list, so the order beats leaves is determined |
| HandObjects.NonNull | Hand.java:18-26 | the cards of the constructor's input with the null entries skipped, in input order |
| HandObjects.HandObject.constructor | Hand.java:18-26 | the new hand holds the non-null input cards in input order, with the given owner and class |
| HandObjects.HandObject.Sort | Straight.java:82 | the list becomes its sorted copy |
| HandObjects.HandObject.GetTopCard | Hand.java:43-51 | returns the class's top card of the hand as it was; a non-empty list is left sorted, and the cards are kept |
| HandObjects.HandObject.IsValid | Flush.java:25-46 | returns the class's validity verdict on the list as it was; a five-card class sorts five cards in place, a small class leaves the list alone, and the cards are kept |
| HandObjects.HandObject.Beats | Hand.java:59-91 | returns the beats verdict on the two hands as they were; each list keeps its cards and is either left as it was or sorted, and a winning verdict leaves both sorted |
| HandObjects.HandObject.BeatsValid | Flush.java:83-85 | once this hand is valid: tests the other hand (sorting a five-card list in place) and returns the beats verdict on the hands as they were, with the same guarantees on both lists as Beats |
| HandObjects.HandObject.BothValid | Flush.java:86-124 | on two valid hands: the category and size checks, then the top cards; the verdict is beats on the hands as they were, and a winning verdict leaves both lists sorted |
| HandObjects.HandObject.CompareTops | Hand.java:64-89 | on two valid hands of one class, returns the class's top-card rule applied to the top cards of the hands as they were; both lists keep their cards and end sorted, as getTopCard leaves them |
| Decks.DeckPosition | BigTwoDeck.java:16-20 | position 13 * i + j of the deck holds the card of suit i and rank j |
| Decks.StandardDeck | BigTwoDeck.java:14-22 | the 52 cards in the order initialize adds them: suit by suit, rank by rank within a suit |
| Decks.BigTwoDeck.constructor | BigTwo.java:29 | the model's new deck object starts empty; what Deck's own constructor puts in a new deck is not modelled |
| Decks.DeckDistinct | BigTwoDeck.java:16-21 | the deck holds 52 pairwise different cards |
| Decks.DeckHoldsEveryCardOnce | BigTwoDeck.java:16-21 | every card occurs in the deck exactly once |
| Decks.ThreeOfDiamondsOnce | BigTwoDeck.java:16-21 | the three of diamonds is at position 2 and at no other position |
| Decks.BigTwoDeck.Initialize | BigTwoDeck.java:14-22 | after initialize, whatever the deck held before, it holds exactly the 52 cards in suit-major, rank-minor order |
| Rules.PlayTakesSelected | BigTwo.java:200 | the played cards are the cards at the selected positions, one per position, and none for no selection; from a hand without repeats they have no repeats and are a sub-multiset of the hand |
| Rules.Play | BigTwo.java:200 | player.play: the cards at the selected positions in selection order, or null for a null selection |
| Rules.RemoveCardsCount | BigTwo.java:209 | removing cards drops every copy of a removed card and keeps every other card's count |
| Rules.RemoveCards | BigTwo.java:209 | removeCards: the player's list without every card that occurs in the played hand |
| Rules.RemovePlayed | BigTwo.java:209 | taking a played sub-hand out of a hand without repeats leaves exactly the rest: remainder plus played equals the hand |
| Rules.FirstValid | BigTwo.java:396-425 | a category found is in the order and valid for the cards; none is found exactly when no category in the order is valid |
| Rules.ComposeHand | BigTwo.java:366-428 | composeHand: null for a null selection or a size other than 1, 2, 3 and 5; otherwise the player's Single, Pair or Triple if valid, or, for five cards, the first valid class among StraightFlush, Quad, FullHouse, Flush, Straight holding the sorted cards; null when none is valid |
| Rules.FirstValidUpTo | BigTwo.java:396-425 | when the category at position j is valid, the search finds a category at position j or earlier, so the first valid one in the order wins |
| Rules.FirstValidIsStrongest | BigTwo.java:396-425 | in an order listed strongest first, every category valid for the cards is at most as strong as the one the search finds |
| Rules.FiveCardOrderIsStrongestFirst | BigTwo.java:396-425 | the search order StraightFlush, Quad, FullHouse, Flush, Straight is listed strongest first and holds every five-card class |
| Rules.ValidHandSize | BigTwo.java:366-395 | a valid hand of each class has that class's size: 1, 2, 3 or 5 |
| Rules.ComposeHandSound | BigTwo.java:366-428 | a composed hand is valid, belongs to the player and holds exactly the played cards |
| Rules.FiveCardPicksStrongest | BigTwo.java:396-425 | trying StraightFlush, Quad, FullHouse, Flush, Straight in turn finds a category at least as strong as any the five cards form |
| Rules.ComposeHandPicksStrongest | BigTwo.java:366-428 | a hand is composed iff there is a selection and its cards are valid for some category; the chosen category is the strongest valid one |
| Rules.PlayedIsComposed | BigTwo.java:198-201 | an accepted hand is the hand composed from the selected cards |
| Rules.SelectionComposes | BigTwo.java:366-428 | the selection forms a hand iff its cards are valid for some category, and that hand holds the selected cards |
| Rules.EmptyTableRule | BigTwo.java:202-228 | on an empty table a pass is never accepted; a selection is accepted iff its cards form a valid hand and include the three of diamonds |
| Rules.LeaderRule | BigTwo.java:231-257 | when the top hand is the mover's own, a pass is refused and any selection forming a valid hand is accepted, without beats |
| Rules.ChallengerRule | BigTwo.java:259-295 | facing another player's hand, the move is a pass iff nothing is selected; a selection is accepted iff its hand beats the top hand, which has the same size |
| Rules.PlayedHandIsComposed | BigTwo.java:201-209 | an accepted hand is valid, is the mover's, holds exactly the selected cards and has the strongest category they form |
| Rules.Judge | BigTwo.java:202-295 | the verdict of checkMove: on an empty table a hand holding the three of diamonds is played; the owner of the top hand plays any valid hand; another player passes on no selection or plays a hand that beats the top hand; anything else is illegal |
| Rules.Place | BigTwo.java:205-209 | an accepted hand goes on the table and its cards leave the player |
| Rules.Advance | BigTwo.java:219-223 | the turn passes to (cur + 1) mod 4 unless the player to move has no cards |
| Rules.Apply | BigTwo.java:202-295 | carries out a verdict: a played hand is placed and the turn advances, a pass only advances the turn, an illegal move changes nothing |
| Rules.Step | BigTwo.java:198-297 | checkMove as a function of the game: the verdict on the selection, carried out |
| Rules.EndOfGame | BigTwo.java:336-343 | endOfGame: the player to move holds no cards |
| Rules.StepEffects | BigTwo.java:225-228 | a rejected move changes nothing; a pass keeps every player's cards and the table; a play appends exactly its hand to the table and leaves the other players' cards alone |
| Rules.SeatAdvance | BigTwo.java:219-223 | after an accepted play or pass, the turn goes to seat (cur + 1) mod 4, unless the mover now holds no cards, which ends the game |
| Rules.ApplyEffects | BigTwo.java:202-295 | carrying out a judged move: an illegal one changes nothing; a pass keeps the players and the table; a play appends its hand and takes its cards from the mover only; after a pass or a play the seat moves to (cur + 1) mod 4 unless the mover is out of cards |
| Rules.AdvanceSeat | BigTwo.java:219-223 | passing the turn keeps every player's cards and the table, and moves to the next seat unless the mover has no cards left |
| Rules.PlayersCardsUpdate | BigTwo.java:209 | replacing one player's cards changes all the players' cards by exactly that difference |
| Rules.PlayerWithinAll | BigTwo.java:198-199 | each player's cards are among all the players' cards |
| Rules.PlaceKeepsTotal | BigTwo.java:205-209 | placing a hand whose cards leave the player keeps the cards in hands and on the table together |
| Rules.StepConservesCards | BigTwo.java:273-276 | every move, accepted or not, keeps the multiset of cards in hands and on the table when the mover holds no repeated card |
| Rules.InvHandsDistinct | BigTwo.java:157-163 | under the game invariant no player holds a card twice |
| Rules.StepKeepsInv | BigTwo.java:198-329 | every move keeps the invariant: four seats, table hands valid and owned by a seat, and exactly the 52 deck cards in hands and on the table |
| Rules.ApplyKeepsInv | BigTwo.java:198-297 | carrying out a move that keeps the cards and tables only valid hands of the mover keeps the game invariant |
| Dealing.DealtSize | BigTwo.java:157-163 | after dealing n cards, seat p holds (n + 3 - p) / 4 of them, so 13 each after 52 |
| Dealing.Dealt | BigTwo.java:157-163 | the cards seat p holds after the first n cards are dealt round the table, card i to seat i mod 4 |
| Dealing.D3Holder | BigTwo.java:157-163 | the seat noted during the deal as receiving the three of diamonds, 0 when it was not dealt |
| Dealing.StartState | BigTwo.java:145-172 | the game after start: each seat's dealt cards sorted, an empty table, the noted seat to move |
| Dealing.DealtAt | BigTwo.java:157-160 | the k-th card seat p receives is card 4k + p of the deck |
| Dealing.DealOne | BigTwo.java:159 | dealing card n - 1 adds it to seat (n - 1) mod 4 and to no other seat |
| Dealing.DealStepAt | BigTwo.java:159 | dealing one card adds exactly one copy of it to the seats together |
| Dealing.DealConserves | BigTwo.java:157-163 | the four seats together hold exactly the first n cards of the deck |
| Dealing.DealConservesAt | BigTwo.java:157-163 | for every card, the four seats together hold as many copies as the first n cards of the deck |
| Dealing.PlayersCardsOfFour | BigTwo.java:157-163 | the cards of four players are the sum of each player's cards |
| Dealing.DealtGrows | BigTwo.java:159 | dealing another card never takes a card from a seat |
| Dealing.D3HolderHoldsIt | BigTwo.java:157-163 | the noted seat is a seat; it received the three of diamonds if that card was dealt, and is 0 otherwise |
| Dealing.StartHandsSorted | BigTwo.java:145-168 | after start there are four seats and an empty table, and each seat holds 13 cards in game order |
| Dealing.StartHoldsDealtCards | BigTwo.java:145-168 | after start the hands and table hold exactly the first 52 cards of the deck |
| Dealing.StartSeatHoldsThreeOfDiamonds | BigTwo.java:157-172 | the seat to move after start holds the three of diamonds if it was dealt, and is seat 0 otherwise |
| Dealing.StartEstablishesInv | BigTwo.java:145-172 | starting from any ordering of the full deck establishes the game invariant |
| Dealing.UnshuffledDeckOpensAtSeatTwo | BigTwo.java:155-172 | with the deck as initialize builds it (no shuffle), the three of diamonds is card 2, so seat 2 opens |
| Dealing.D3HolderAfterLast | BigTwo.java:160-162 | once past position 2 of the unshuffled deck, the noted seat stays 2 |
| Games.BigTwo.constructor | BigTwo.java:26-42 | four players without cards, an empty table, seat 0 current |
| Games.BigTwo.EndOfGame | BigTwo.java:336-343 | endOfGame on the game object: the current player holds no cards |
| Games.BigTwo.NextPlayer | BigTwo.java:219-223 | the seat advances mod 4 unless the mover has no cards left |
| Games.BigTwo.Accept | BigTwo.java:205-223 | the hand is appended to the table, its cards leave the player, and the turn passes on |
| Games.BigTwo.CheckMove | BigTwo.java:198-329 | the new players' cards, table and current seat are exactly Rules.Step of the old state |
| Games.BigTwo.DealFrom | BigTwo.java:157-163 | after the loop, seat p holds exactly the cards dealt to it, and the noted seat is where the last three of diamonds went |
| Games.BigTwo.SortHands | BigTwo.java:166-168 | every seat's cards become their sorted copy |
| Games.BigTwo.Start | BigTwo.java:145-178 | the new state is exactly the dealt, sorted, empty-table state with the holder of the three of diamonds to move |
| Gui.SelectedIndicesSpec | BigTwoGUI.java:248-267 | the selection has one entry per set flag; it is strictly increasing; every entry is a flagged position in range; every flagged position is in it |
| Gui.SelectedIndices | BigTwoGUI.java:247-267 | the positions whose flag is set, in ascending order, as getSelected fills its array |
| Gui.CountSet | BigTwoGUI.java:250-255 | the number of flags set, as getSelected's first loop counts them |
| Gui.NothingSelected | BigTwoGUI.java:250-256 | no flag counts as set exactly when every flag is false |
| Gui.CountSetPrefix | BigTwoGUI.java:250-255 | a prefix of the flags has no more set than the whole |
| Gui.SelectionFitsHand | BigTwoGUI.java:259-264 | flags over a hand's card positions give a selection of in-range, strictly increasing positions, which checkMove accepts as input |
| Gui.BigTwoGUI.constructor | BigTwoGUI.java:24 | thirteen flags, none set |
| Gui.BigTwoGUI.ResetSelected | BigTwoGUI.java:235-239 | every flag is false afterwards |
| Gui.BigTwoGUI.GetSelected | BigTwoGUI.java:248-267 | null exactly when no flag is set; otherwise an array with one entry per set flag, listing the set positions in ascending order |

## Left out

- BigTwoClient.java: not modelled. It is socket connection and message sending, `ObjectOutputStream`, a reader thread and `synchronized` message parsing: transport and concurrency.
- BigTwoGUI.java apart from `selected`, `resetSelected` and `getSelected`: not modelled. That is Swing layout, image loading, painting, mouse hit-testing and the button and menu listeners.
- The `ui.*` calls and message strings in `BigTwo.start` and `BigTwo.checkMove`: output only, not modelled.
- The end-of-game reporting block of `checkMove` (BigTwo.java:300-328) and its `(cur + 2) % 4` guard: not modelled. It only prints, shows a dialog and sends a READY message.
- `BigTwo.makeMove`, `main`, the getters and setters, and the GUI and client wiring of the constructor: not modelled. `makeMove` only sends a network message.
- Shuffling: not modelled, because it is commented out in `start` and would need randomness. `Dealing` works for any deck order; `Dealing.UnshuffledDeckOpensAtSeatTwo` covers the order `initialize` builds.
- Card, CardList, Deck, CardGamePlayer and CardGameMessage are not part of this model. They are stood in for as follows:
  - a card is a (suit, rank) value;
  - a card list is a sequence;
  - `sort` is insertion into game order (a sorted permutation, which is unique);
  - `contains` is value equality;
  - `removeCards` drops every copy of each given card;
  - `play` returns the cards at the given positions, or null for null positions.
- Games.BigTwo.CheckMove: requires `playerIdx == currentPlayerIdx` instead of modelling a check, because the source has no out-of-turn check; the window only calls it for the active player.
- Games.BigTwo.CheckMove: requires the selected positions to be in range and strictly increasing, which is what `getSelected` produces (`Gui.SelectionFitsHand`).
- Rules.StepConservesCards: requires that the mover holds no repeated card. `Rules.StepKeepsInv` discharges this from the invariant, since a game started from the deck never holds a card twice.
- Decks.BigTwoDeck.constructor: starts the deck empty. Deck's constructor, which decides what a new deck holds, is not part of this model; every deck the model deals from has been filled by `initialize` or is taken as a parameter (the client receives its deck in a message).
- Hands.TopCard: gives no card for a Flush, FullHouse or Quad of one to four cards, where the source reads positions that do not exist. `beats` and `composeHand` only ask for the top card of a valid hand, so the case does not arise in play.
- HandObjects.HandObject.GetTopCard: requires a Flush, FullHouse or Quad object to hold no cards or at least five, for the same reason.
- Hands held on the table are stored as values. A later `beats` call sorts a tabled hand object's list in place, which changes only the order of its cards; that reordering of tabled hands is not modelled. `HandObjects.HandObject.Beats` models the reordering on the objects themselves: each list is kept or sorted, and both are sorted after a winning verdict.
- Comparing category names with `==` is modelled as comparing categories (`Hands.TypeNameInjective`).
- Comparing player objects by reference is modelled as comparing the hand's owner seat with `currentPlayerIdx`.
