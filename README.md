# Tien Len rules engine in Dafny

A model of the rules engine of `tien-len.py`, a four-seat game of Tien Len
("Vietnamese poker") played against three computer seats. It covers:

- the card order, where the 3 of Spades is lowest and every other card
  ranks by value and then by suit;
- the combination classifier and comparator (`Hand`): Single, Pair,
  Triple, Quad and five-card Straight, each with an integer rank;
  `can_beat` requires the same type, the same size and a higher rank;
- the seats (`Player`): `add_card` appends and sorts, `remove_cards` drops
  one occurrence of each listed card that is held, and `has_3_spades`;
- the game (`Game`):
  - `create_deck` builds the 52-card deck;
  - `deal_cards` shuffles, deals round-robin (position i goes to seat
    i mod 4) and gives the first turn to the holder of the 3 of Spades;
  - `get_valid_moves`;
  - `play_cards`, `next_turn`, the pass path and `ai_play`.

Modules, one per file:

| module | file | models |
|---|---|---|
| `Wrappers` | wrappers.dfy | `Option` |
| `Sequences` | sequences.dfy | Python's stable `sort`/`sorted` as insertion sort on an integer key; `Map`; `NoDup`; `Iota` |
| `Cards` | cards.dfy | `Suit`, `Card`, `get_sort_value`, `<` |
| `Hands` | hands.dfy | `Hand`: `_determine_type`, `_is_straight`, `_get_rank`, `can_beat` |
| `Moves` | moves.dfy | what `get_valid_moves` returns, as a function |
| `Players` | players.dfy | class `Player` |
| `Deal` | deal.dfy | the deck, the shuffle order and the round-robin deal, as values |
| `Engine` | engine.dfy | the turn fields as a `Table` value, with their transitions; class `Game` |

`Player` and `Game` are classes whose methods update their fields in place,
like the source.

Each `Game` method is proved against a function on values:

- `PlayCards`, `Pass` and `NextTurn` against `AfterPlay`, `AfterPass` and
  `AfterNextTurn` on `Table`;
- `DealCards` against `DealOnto` and `Opener`;
- `GetValidMoves` against `ValidMoves`.

The properties are proved as lemmas about those functions. The class
invariant `Game.Valid` covers four distinct seats, sorted hands, the turn
and pass counters in range, and a winner seated at the table.

The model keeps these quirks of the code, which depart from the usual
rules of Tiến Lên:

- `play_cards` does not check whose turn it is.
- `play_cards` accepts a hand of no recognised type on an open table.
  While that hand is on the table, no seat is offered a move
  (`UntypedPlayBlocksTable`); three passes clear it.
- Nothing stops a pass on an open table: the pass path at lines 241-244
  and 444-445 of tien-len.py counts it like any other (`AfterPass`).
- The open-table rule ("only the 3 of Spades, alone") applies at every
  trick, not just the first. A seat that clears a trick without holding
  the 3 of Spades is offered nothing (`NoOpeningWithoutThreeOfSpades`).
- `deal_cards` does not empty the hands first. The deal facts are proved
  for a deal onto empty hands, which is what a fresh `Game` has.

Turn order runs 0, 3, 2, 1 (`(current - 1) % 4`). Python's `%` and Dafny's
`%` agree here because the divisor is positive.

## Model

| member | source | states |
|---|---|---|
| Cards.SuitValue | tien-len.py:28-32 | the enumeration values of the four suits lie in 0..3 |
| Cards.SuitOf | tien-len.py:28-32 | the suit with enumeration value v, in declaration order (the iteration order of `for suit in Suit`) |
| Cards.SortValue | tien-len.py:57-63 | `get_sort_value`: the card's key, 0 for the 3 of Spades and value*10 + suit otherwise; its meaning is given by Cards.ThreeOfSpadesIsLeast and Cards.SortValueInjective |
| Cards.Less | tien-len.py:65-66 | `__lt__`, the card order by sort key; see Cards.LessByValueThenSuit and Cards.LessIsStrictTotalOrder |
| Cards.ThreeOfSpadesIsLeast | tien-len.py:57-66 | the 3 of Spades is below every other card of the deck, and no card is below it |
| Cards.SortValueInjective | tien-len.py:57-63 | two deck cards with the same sort key are the same card, so sorting never has to break ties |
| Cards.LessByValueThenSuit | tien-len.py:57-66 | on deck cards, `<` compares values first and suits second |
| Cards.LessIsStrictTotalOrder | tien-len.py:65-69 | `<` is irreflexive and transitive, and any two distinct deck cards are comparable |
| Sequences.Insert | tien-len.py:138-139 | inserting one element into a sorted list gives a sorted list one longer |
| Sequences.InsertPermutes | tien-len.py:138-139 | insertion adds exactly the new element and keeps every other |
| Sequences.SortBy | tien-len.py:80 | the sorted list has the input's length and is ordered by the key |
| Sequences.SortByPermutes | tien-len.py:80 | the sorted list is a permutation of the input |
| Sequences.SortByAppend | tien-len.py:138-139 | sorting a list with one element appended is inserting that element into the sorted list |
| Sequences.SortBySortedIsIdentity | tien-len.py:139 | sorting an already sorted list changes nothing |
| Sequences.SortedUnique | tien-len.py:80 | two sorted permutations of each other are equal when the key tells elements apart |
| Sequences.SortByPermutation | tien-len.py:80 | with such a key, the sort's result depends only on which elements are given, not on their order |
| Hands.Size | tien-len.py:71-76 | each combination's card count is its enumeration value, 1 to 5 |
| Hands.DetermineType | tien-len.py:84-96 | a type is only given to a list of exactly that type's size |
| Hands.IsStraight | tien-len.py:98-106 | `_is_straight`: five cards whose sorted values rise by one; see Hands.ClassifyStraight, Hands.StraightHasRunOfValues and Hands.RunOfValuesIsStraight |
| Hands.Rank | tien-len.py:108-119 | `_get_rank`, per hand type; see Hands.SinglesCompareAsCards, Hands.PairRank, Hands.PairsCompare, Hands.TriplesAndQuadsCompareByValue and Hands.StraightsCompareByTopValue |
| Hands.MakeHand | tien-len.py:79-82 | a hand holds its cards sorted and as a permutation of the input, and a typed hand has its type's size |
| Hands.ClassifySingle | tien-len.py:84-86 | a hand is a Single exactly when it has one card |
| Hands.ClassifyGroup | tien-len.py:84-94 | a hand is a Pair, Triple or Quad exactly when it has 2, 3 or 4 cards that share one value, in any input order |
| Hands.StraightHasRunOfValues | tien-len.py:94-106 | a Straight has five cards whose values are m..m+4 for some m |
| Hands.RunOfValuesIsStraight | tien-len.py:94-106 | five cards whose values are m..m+4 make a Straight |
| Hands.ClassifyStraight | tien-len.py:94-106 | a hand is a Straight exactly when it has five cards whose values form a run without gaps |
| Hands.ClassifyNone | tien-len.py:84-96 | a hand has no type exactly when none of the five shapes fits its cards |
| Hands.MakeHandPermutation | tien-len.py:79-82 | the same deck cards in any order make the same hand: same cards, type and rank |
| Hands.MakeHandIdempotent | tien-len.py:79-82 | building a hand from a hand's cards gives the same hand |
| Hands.CanBeat | tien-len.py:121-128 | `can_beat`: an empty table is beaten by anything, otherwise same type, same size, higher rank; see Hands.CanBeatIsStrictOrder, Hands.DifferentShapesNeverBeat and Hands.PairsCompare |
| Hands.CanBeatIsStrictOrder | tien-len.py:121-128 | anything beats an empty table; `can_beat` is irreflexive, asymmetric and transitive |
| Hands.DifferentShapesNeverBeat | tien-len.py:121-128 | hands of different types or sizes never beat each other in either direction |
| Hands.SinglesCompareAsCards | tien-len.py:108-110 | one Single beats another exactly when its card is higher in the card order |
| Hands.PairRank | tien-len.py:111-112 | a Pair is ranked value * 100 + its higher suit, computed on the input cards in any order |
| Hands.PairsCompare | tien-len.py:111-128 | a Pair beats a Pair exactly when its value is higher, or the values are equal and its higher suit is higher |
| Hands.TriplesAndQuadsCompareByValue | tien-len.py:113-128 | Triples (and Quads) compare by their shared value alone |
| Hands.StraightsCompareByTopValue | tien-len.py:117-128 | Straights compare by their highest value alone |
| Hands.StraightOfDeckCardsDoesNotWrap | tien-len.py:98-106 | a Straight of deck cards starts between 3 and 11: it never wraps past the "2" |
| Hands.SortedPairHand | tien-len.py:79-112 | two sorted cards of one value make the Pair hand ranked value * 100 + the higher suit |
| Hands.PairOfSevensExample | tien-len.py:111-128 | 7 of Spades + 7 of Hearts beats 7 of Clubs + 7 of Diamonds (rank 703 against 702) |
| Moves.OpeningMoves | tien-len.py:189-194 | the open-table branch of `get_valid_moves`: one move [3 of Spades] per copy held, in hand order; see Moves.OpeningMovesCount and Moves.OpeningMovesExact |
| Moves.BeatingWindows | tien-len.py:196-236 | the windows `cards[i:i+k]` of the first n that beat the table, in scan order; see Moves.BeatingWindowsSound, Moves.BeatingWindowsComplete and Engine.ShapeFailsNeverBeats |
| Moves.ValidMoves | tien-len.py:188-236 | `get_valid_moves` as a function of the table and the hand; see Moves.ValidMovesSound, Moves.ValidMovesComplete, Moves.MovesAreHeld and Engine.AcceptedMove |
| Moves.OpeningMovesCount | tien-len.py:189-194 | on an open table every move is `[3 of Spades]`, one per copy the hand holds |
| Moves.OpeningMovesExact | tien-len.py:189-194 | a hand without repeats is offered exactly `[3 of Spades]` if it holds it, and nothing otherwise |
| Moves.BeatingWindowsSound | tien-len.py:196-234 | every window collected is a run of neighbouring cards of the hand that beats the table |
| Moves.BeatingWindowsComplete | tien-len.py:196-234 | every run of neighbouring cards of the hand that beats the table is collected |
| Moves.ValidMovesSound | tien-len.py:196-236 | each move offered against a combination is a window of the hand with the same type and size that beats it |
| Moves.ValidMovesComplete | tien-len.py:196-236 | each window of the table combination's size that beats it is offered |
| Moves.MovesAreHeld | tien-len.py:188-236 | each move offered is made of cards the seat holds |
| Moves.StraightWindowDistinct | tien-len.py:229 | a Straight has five distinct values, so the `len(set(...)) == 5` test passes for it |
| Moves.ShapeOfSortedWindow | tien-len.py:205-231 | a sorted window that makes a hand of the table's type passes the shape test the loop makes before building it |
| Players.RemoveFirst | tien-len.py:143-144 | `list.remove` shortens the hand by exactly one card |
| Players.RemoveFirstPermutes | tien-len.py:143-144 | `list.remove` takes away exactly one occurrence of the card |
| Players.RemoveFirstKeepsSorted | tien-len.py:143-144 | removing a card keeps a sorted hand sorted |
| Players.RemoveEach | tien-len.py:141-144 | `remove_cards` on values: each listed card the hand holds is removed once, in list order; see Players.RemoveEachMultiset and Players.RemoveEachKeepsSorted |
| Players.RemoveEachMultiset | tien-len.py:141-144 | `remove_cards` takes away exactly the listed cards the hand holds, one occurrence each, and keeps every other card |
| Players.RemoveEachKeepsSorted | tien-len.py:141-144 | `remove_cards` keeps a sorted hand sorted |
| Players.AddCardInserts | tien-len.py:137-139 | on a sorted hand `add_card` inserts the card in its place and adds exactly that card |
| Players.Player.constructor | tien-len.py:131-135 | a new seat has its name and kind and an empty, sorted hand |
| Players.Player.AddCard | tien-len.py:137-139 | the new hand is the old hand plus the card, sorted, and it is sorted |
| Players.Player.RemoveCards | tien-len.py:141-144 | the new hand is `RemoveEach` of the old one, and sortedness is kept |
| Players.Player.Has3Spades | tien-len.py:146-147 | true exactly when the hand holds the 3 of Spades |
| Deal.DeckCard | tien-len.py:167-172 | the card at position i of `create_deck`: suit i / 13 in declaration order, value 3 + i mod 13; see Deal.FullDeckIsEveryCardOnce |
| Deal.FullDeck | tien-len.py:167-172 | the deck has 52 cards |
| Deal.FullDeckIsEveryCardOnce | tien-len.py:167-172 | the deck holds every card with a value 3..15 exactly once, and nothing else |
| Deal.ShuffledDeckIsDeck | tien-len.py:175-176 | the shuffled deck holds exactly the deck's cards |
| Deal.DealtTo | tien-len.py:178-179 | the cards `deck[i]` with i mod 4 == p, in deck order, that seat p receives; see Deal.DealtToCount, Deal.DealtToPartition and Engine.DealOntoSorts |
| Deal.DealtToCount | tien-len.py:178-179 | the round-robin deal gives seat p (len + 3 - p) / 4 cards, 13 each from 52 |
| Deal.DealtToPartition | tien-len.py:178-179 | the four seats' shares together are exactly the dealt deck |
| Deal.DealPartitionsDeck | tien-len.py:174-179 | a shuffled deal gives 13 cards to each seat, no card twice, every card of the game somewhere, and the 3 of Spades to exactly one seat |
| Deal.HoldingTheDeck | tien-len.py:178-184 | four hands that together hold exactly the deck share no card, and exactly one holds the 3 of Spades |
| Deal.HeldByOneSeat | tien-len.py:181-184 | in four hands with no repeated card, a card is held by at most one seat |
| Deal.SmallerHandsKeepNoDup | tien-len.py:141-144 | taking cards out of hands never makes two hands share a card |
| Engine.NextSeat | tien-len.py:266 | the next seat is in 0..3 and one below the current seat, modulo 4 |
| Engine.DealOnto | tien-len.py:178-179 | dealing onto four seats gives four seats; its meaning is given by Engine.DealOntoSorts and Engine.FreshDeal |
| Engine.OpenerFrom | tien-len.py:181-184 | the opener is the first seat from p on that holds the 3 of Spades, or the current seat when none does |
| Engine.AfterNextTurn | tien-len.py:265-271 | `next_turn`: the turn steps one seat back, and on the third pass the table is cleared and the count reset; see Engine.SeatsGoRound and Engine.PassKeepsTableInv |
| Engine.AfterPass | tien-len.py:241-244 | a pass (`passes += 1; next_turn()`); see Engine.PassKeepsTableInv, Engine.PassesFromFresh and Engine.TrickReturnsToLastPlayer |
| Engine.AfterPlay | tien-len.py:249-263 | `play_cards` on the turn fields: an accepted hand goes on the table as the current seat's, the count resets and the turn moves on unless the seat went out; any other hand is ignored; see Engine.AcceptedPlay and Engine.PlayKeepsTableInv |
| Engine.Opener | tien-len.py:181-184 | the first seat holding the 3 of Spades, else the current seat; see Engine.OpenerFrom, Engine.OnlyOpenerHolds and Engine.FreshDeal |
| Engine.SeatsGoRound | tien-len.py:266 | four turns bring play back to the same seat, through three other seats |
| Engine.PassKeepsTableInv | tien-len.py:241-244 | a pass keeps the seats in range and at most two passes pending, and clears the table on the third pass |
| Engine.PlayKeepsTableInv | tien-len.py:249-263 | a play, accepted or ignored, keeps the seats in range and at most two passes pending |
| Engine.AcceptedPlay | tien-len.py:252-263 | an accepted play puts its hand on the table as the current seat's, clears the pass count, and moves the turn on unless the seat has won |
| Engine.PassesFromFresh | tien-len.py:265-271 | from a fresh trick, n passes move the turn n seats on, leave n mod 3 passes pending, and clear the table once three have passed |
| Engine.TrickReturnsToLastPlayer | tien-len.py:249-271 | after an accepted play that does not win and three passes, the same seat is to play on a clear table |
| Engine.NoOpeningWithoutThreeOfSpades | tien-len.py:189-194 | a hand without the 3 of Spades is offered nothing on an open table |
| Engine.UntypedPlayBlocksTable | tien-len.py:252-257 | a hand of no type is accepted on an open table, and then no seat is offered a move |
| Engine.FreshDeal | tien-len.py:174-186 | a deal onto empty hands gives each seat 13 cards, no card twice and every card of the game once, and the opener is the only seat holding the 3 of Spades |
| Engine.FreshSeat | tien-len.py:178-179 | dealt onto an empty hand, a seat holds exactly its round-robin share |
| Engine.DealOntoSorts | tien-len.py:178-179 | after the deal a seat's hand is the sorted list of what it held plus its share |
| Engine.Game.constructor | tien-len.py:150-165 | "You" (the human seat) and three computer seats "Player 1".."Player 3", all hands empty, seat 0 to play, nothing on the table, no winner, not started |
| Engine.Game.CreateDeck | tien-len.py:167-172 | the loops build exactly `FullDeck`, suit by suit and then value by value |
| Engine.Game.Shuffle | tien-len.py:176 | position i receives deck card `order[i]`, and the result holds exactly the deck's cards |
| Engine.Game.DealDeck | tien-len.py:178-179 | the hands become `DealOnto` of the old hands and the deck; the turn fields are unchanged |
| Engine.Game.GiveCard | tien-len.py:179 | seat q adds the card with `add_card`; the other three hands are unchanged |
| Engine.Game.FindOpener | tien-len.py:181-184 | the turn goes to the first seat holding the 3 of Spades, or stays when none does; the hands are unchanged |
| Engine.Game.DealCards | tien-len.py:174-186 | the hands become `DealOnto` of the shuffled deck, the opener gets the turn and the game starts; from empty hands, the deal is a `FullDeal` with that opener |
| Engine.Game.GetValidMoves | tien-len.py:188-236 | the moves returned are `ValidMoves` of the table and the seat's hand |
| Engine.Game.ScanForOpening | tien-len.py:189-194 | the open-table loop returns `OpeningMoves` of the hand |
| Engine.Game.ScanWindows | tien-len.py:196-236 | the window loop, with its shape test, returns exactly the windows that beat the table, in scan order |
| Engine.Game.TryWindow | tien-len.py:205-236 | one pass of the window loop: the window `cards[i:i+k]` is appended exactly when it passes the shape test and its hand beats the table |
| Engine.WindowStep | tien-len.py:205-236 | in a sorted hand the shape test never drops a window that would beat the table, so the scan's result grows by that window exactly when it beats the table |
| Engine.Game.PlayCards | tien-len.py:249-263 | the table changes as `AfterPlay`; an accepted play takes the cards out of the seat's hand and makes the seat the winner when the hand empties; an ignored play changes nothing |
| Engine.Game.TakeLead | tien-len.py:254-263 | the accepted hand goes on the table and the seat wins or the turn moves on, as `AfterPlay` says |
| Engine.Game.Discard | tien-len.py:253 | the seat's hand becomes `RemoveEach` of the cards played; the other hands are unchanged |
| Engine.Game.NextTurn | tien-len.py:265-271 | the turn moves as `AfterNextTurn`: next seat, and the table cleared after three passes |
| Engine.Game.Pass | tien-len.py:241-244 | the pass path, which is also the human's pass button at lines 444-445: the table changes as `AfterPass`, and the invariant is kept |
| Engine.Game.AiPlay | tien-len.py:238-247 | a computer seat passes when it is offered nothing, and otherwise plays the first move offered, which `play_cards` always accepts |
| Engine.AcceptedMove | tien-len.py:238-252 | every move `get_valid_moves` offers beats the table, so `play_cards` accepts it |
| Engine.OnlyOpenerHolds | tien-len.py:181-184 | when one seat holds the 3 of Spades, the first seat holding it is the only one |
| Engine.DiscardKeepsDisjoint | tien-len.py:253 | taking cards out of one seat's hand keeps the four hands free of shared cards |
| Engine.ShapeFailsNeverBeats | tien-len.py:205-234 | in a sorted hand, a window that fails the shape test could not have beaten the table, so the test never hides a move |

## Left out

- The pygame interface is not modelled. This covers drawing,
  `handle_card_click`, `get_card_description`, the start screen, the main
  loop and the computer seats' timer (`ai_played_time`). It is
  input/output and timing.
- `Card.get_display_value` and `Card.get_suit_symbol` are not modelled.
  They produce display strings only.
- `Game.last_played_info` is not modelled. It is a display-only field that
  no rule reads.
- `is_current_player_human` and `Player.selected_cards` are not
  modelled. They only decide which UI path calls into the engine.
- The play button's own beat check (tien-len.py:438-441) is not
  modelled. It repeats the test that `play_cards` makes.
- `random.shuffle` is not modelled. The caller passes the permutation
  `order` instead, and any arrangement of 0..51 is allowed.
- Engine.Game.PlayCards does not state that the four hands stay free of
  shared cards. `Game.Valid` does not include it either.
  Engine.DiscardKeepsDisjoint proves it on the hands as values, and
  Engine.Game.Discard ties those values to the seats.
- Engine.Game.DealCards states the full-deal facts only when the hands
  start empty. That is the state a new `Game` is in. The source does not
  empty the hands itself.
