/**
  The turn and trick state machine of `Game`: whose turn it is, the
  combination on the table, who played it, how many seats have passed since,
  and the winner. `Table` is the value of those fields; the functions on it
  say what `play_cards`, `next_turn` and a pass do, and the class `Game`
  does it in place.
 */
module Engine {
  import opened Wrappers
  import opened Sequences
  import opened Cards
  import opened Hands
  import opened Players
  import opened Moves
  import opened Deal

  /** The turn fields of `Game`: `current_player`, `last_hand`, `last_player`, `passes`. */
  datatype Table = Table(current: int, lastHand: Option<Hand>, lastPlayer: Option<int>, passes: int)

  /** The seat that plays after p: play goes round the table downwards, 0, 3, 2, 1, 0, ... */
  function NextSeat(p: int): (q: int)
    ensures 0 <= q < 4
    ensures (q + 1) % 4 == p % 4
  {
    (p - 1) % 4
  }

  /** `next_turn`: pass the turn on; once three seats in a row have passed, clear the table. */
  function AfterNextTurn(t: Table): Table
  {
    if t.passes >= 3 then Table(NextSeat(t.current), None, t.lastPlayer, 0)
    else t.(current := NextSeat(t.current))
  }

  /** A pass (`passes += 1; next_turn()`). Nothing stops a pass on an open table. */
  function AfterPass(t: Table): Table
  {
    AfterNextTurn(t.(passes := t.passes + 1))
  }

  /**
    `play_cards` with hand h from the seat whose turn it is. A hand that does
    not beat the table is ignored. Otherwise h goes on the table as the
    current seat's, the pass count restarts, and the turn moves on unless
    the play emptied the seat's hand (that seat has won).
   */
  function AfterPlay(t: Table, h: Hand, emptied: bool): Table
  {
    if !CanBeat(h, t.lastHand) then t
    else
      var played := Table(t.current, Some(h), Some(t.current), 0);
      if emptied then played else AfterNextTurn(played)
  }

  /** What holds between turns: seats are 0..3 and at most two passes are pending. */
  predicate TableInv(t: Table) {
    && 0 <= t.current < 4
    && 0 <= t.passes <= 2
    && (t.lastPlayer.Some? ==> 0 <= t.lastPlayer.value < 4)
  }

  /** n passes in a row. */
  function Passes(t: Table, n: nat): Table
  {
    if n == 0 then t else AfterPass(Passes(t, n - 1))
  }

  /**
    The four seats' hands after the cards of `d` are dealt onto `held`, card
    i to seat i mod 4, each seat adding its card with `add_card` (append,
    then sort).
   */
  function DealOnto(held: seq<seq<Card>>, d: seq<Card>): (hs: seq<seq<Card>>)
    requires |held| == 4
    ensures |hs| == 4
    decreases |d|
  {
    if |d| == 0 then held
    else
      var hs := DealOnto(held, d[..|d| - 1]);
      var q := (|d| - 1) % 4;
      hs[q := SortBy(hs[q] + [d[|d| - 1]], SortValue)]
  }

  /**
    The seat `deal_cards` gives the first turn: the first of seats p..3
    holding the 3 of Spades; `current` when none of them holds it.
   */
  function OpenerFrom(hs: seq<seq<Card>>, p: nat, current: int): (q: int)
    requires |hs| == 4 && p <= 4
    ensures (exists r :: p <= r < 4 && ThreeOfSpades in hs[r]) ==>
      && p <= q < 4 && ThreeOfSpades in hs[q]
      && forall r :: p <= r < q ==> ThreeOfSpades !in hs[r]
    ensures (forall r :: p <= r < 4 ==> ThreeOfSpades !in hs[r]) ==> q == current
    decreases 4 - p
  {
    if p == 4 then current
    else if ThreeOfSpades in hs[p] then p
    else OpenerFrom(hs, p + 1, current)
  }

  /** The opener over all four seats. */
  function Opener(hs: seq<seq<Card>>, current: int): int
    requires |hs| == 4
  {
    OpenerFrom(hs, 0, current)
  }

  // ---------------------------------------------------------------------------

  /** Four turns bring play back to the same seat, and the four seats in between are all different. */
  lemma SeatsGoRound(p: int)
    requires 0 <= p < 4
    ensures NextSeat(NextSeat(NextSeat(NextSeat(p)))) == p
    ensures NextSeat(p) != p && NextSeat(NextSeat(p)) != p && NextSeat(NextSeat(NextSeat(p))) != p
  {
  }

  /** A pass keeps the seats in range and the pending passes at most two. */
  lemma PassKeepsTableInv(t: Table)
    requires TableInv(t)
    ensures TableInv(AfterPass(t))
    ensures AfterPass(t).lastPlayer == t.lastPlayer
    ensures AfterPass(t).lastHand == if t.passes == 2 then None else t.lastHand
  {
  }

  /** A play, accepted or not, keeps the seats in range and the pending passes at most two. */
  lemma PlayKeepsTableInv(t: Table, h: Hand, emptied: bool)
    requires TableInv(t)
    ensures TableInv(AfterPlay(t, h, emptied))
  {
  }

  /** An accepted play puts its hand on the table as the current seat's and clears the pass count. */
  lemma AcceptedPlay(t: Table, h: Hand, emptied: bool)
    requires CanBeat(h, t.lastHand)
    ensures var u := AfterPlay(t, h, emptied);
      && u.lastHand == Some(h) && u.lastPlayer == Some(t.current) && u.passes == 0
      && u.current == if emptied then t.current else NextSeat(t.current)
  {
  }

  /**
    From a table with no pending passes, n passes move the turn n seats on,
    leave n mod 3 passes pending, and clear the table once three have passed.
   */
  lemma {:induction false} PassesFromFresh(t: Table, n: nat)
    requires TableInv(t) && t.passes == 0
    ensures Passes(t, n).current == (t.current - n) % 4
    ensures Passes(t, n).passes == n % 3
    ensures Passes(t, n).lastHand == if n >= 3 then None else t.lastHand
    ensures Passes(t, n).lastPlayer == t.lastPlayer
  {
    if n > 0 {
      PassesFromFresh(t, n - 1);
      var u := Passes(t, n - 1);
      assert Passes(t, n) == AfterPass(u);
      SeatBack(t.current - (n - 1));
      PassCount(n);
    }
  }

  /** Moving one seat on from seat a mod 4 is seat (a - 1) mod 4. */
  lemma SeatBack(a: int)
    ensures NextSeat(a % 4) == (a - 1) % 4
  {
  }

  /** Counting passes modulo 3: the pass after a count of 2 clears it. */
  lemma PassCount(n: nat)
    requires n > 0
    ensures n % 3 == if (n - 1) % 3 == 2 then 0 else (n - 1) % 3 + 1
    ensures (n - 1) % 3 == 2 <==> n % 3 == 0
    ensures n < 3 ==> (n - 1) % 3 == n - 1
  {
  }

  /**
    When seat p's play is accepted and does not win, and the other three seats
    pass, the turn comes back to p with the table clear.
   */
  lemma TrickReturnsToLastPlayer(t: Table, h: Hand)
    requires TableInv(t) && CanBeat(h, t.lastHand)
    ensures Passes(AfterPlay(t, h, false), 3) == Table(t.current, None, Some(t.current), 0)
  {
    var u := AfterPlay(t, h, false);
    PassesFromFresh(u, 3);
  }

  /**
    Once the 3 of Spades has been played, a hand asked to open a cleared table
    is offered nothing: the opening rule is applied at every trick, not just
    the first.
   */
  lemma NoOpeningWithoutThreeOfSpades(cards: seq<Card>)
    requires ThreeOfSpades !in cards
    ensures ValidMoves(None, cards) == []
  {
    OpeningMovesCount(cards);
  }

  /**
    `play_cards` does not ask for a recognised combination: on an open table a
    hand of no type is accepted, and against it no seat is offered any move.
   */
  lemma UntypedPlayBlocksTable(t: Table, cards: seq<Card>, emptied: bool, hand: seq<Card>)
    requires t.lastHand.None? && MakeHand(cards).handType.None?
    ensures AfterPlay(t, MakeHand(cards), emptied).lastHand == Some(MakeHand(cards))
    ensures ValidMoves(AfterPlay(t, MakeHand(cards), emptied).lastHand, hand) == []
  {
  }

  /**
    Four hands as a full deal leaves them: 13 cards each, no card twice, every
    card of the deck somewhere, and the 3 of Spades with seat `opener` alone.
   */
  ghost predicate FullDeal(hs: seq<seq<Card>>, opener: int)
    requires |hs| == 4
  {
    && |hs[0]| == 13 && |hs[1]| == 13 && |hs[2]| == 13 && |hs[3]| == 13
    && NoDup(Concat4(hs[0], hs[1], hs[2], hs[3]))
    && (forall c :: c in Concat4(hs[0], hs[1], hs[2], hs[3]) <==> ValidCard(c))
    && (forall p :: 0 <= p < 4 ==> (ThreeOfSpades in hs[p] <==> p == opener))
  }

  /**
    A deal onto four empty hands gives each seat 13 cards, no card twice and
    every card of the deck once, and the opener is the one seat holding the
    3 of Spades.
   */
  lemma FreshDeal(order: seq<int>, current: int)
    requires IsShuffleOrder(order)
    ensures var hs := DealOnto([[], [], [], []], Map(order, DeckCard));
      FullDeal(hs, Opener(hs, current))
  {
    var d := Map(order, DeckCard);
    var hs := DealOnto([[], [], [], []], d);
    var empty: seq<seq<Card>> := [[], [], [], []];
    FreshSeat(empty, d, 0);
    FreshSeat(empty, d, 1);
    FreshSeat(empty, d, 2);
    FreshSeat(empty, d, 3);
    DealPartitionsDeck(order, hs[0], hs[1], hs[2], hs[3]);
    OnlyOpenerHolds(hs, Opener(hs, current));
  }

  /** Dealt onto an empty hand, a seat holds exactly its share of the deck. */
  lemma FreshSeat(held: seq<seq<Card>>, d: seq<Card>, p: nat)
    requires |held| == 4 && p < 4 && held[p] == []
    ensures multiset(DealOnto(held, d)[p]) == multiset(DealtTo(d, p))
  {
    var share := DealtTo(d, p);
    assert DealOnto(held, d)[p] == SortBy(share, SortValue) by {
      DealOntoSorts(held, d, p);
      assert [] + share == share;
    }
    SortByPermutes(share, SortValue);
  }

  // ---------------------------------------------------------------------------

  class Game {
    const players: seq<Player>
    var currentPlayer: int
    var lastHand: Option<Hand>
    var lastPlayer: Option<int>
    var passes: int
    var winner: Player?
    var gameStarted: bool

    /** Four different seats with sorted hands; the turn fields satisfy `TableInv`; the winner sits at the table. */
    ghost predicate Valid()
      reads this, players
    {
      && |players| == 4
      && (forall i, j :: 0 <= i < j < 4 ==> players[i] != players[j])
      && (forall i :: 0 <= i < 4 ==> players[i].Valid())
      && TableInv(View())
      && (winner != null ==> winner in players)
    }

    /** The turn fields as a `Table`. */
    function View(): Table
      reads this
    {
      Table(currentPlayer, lastHand, lastPlayer, passes)
    }

    /** The four hands as a sequence of values. */
    ghost function Hands(): seq<seq<Card>>
      reads this, players
      requires |players| == 4
    {
      [players[0].cards, players[1].cards, players[2].cards, players[3].cards]
    }

    /** `Game()`: the human seat "You" and three computer seats, empty hands, seat 0 to play. */
    constructor ()
      ensures Valid() && fresh(players)
      ensures players[0].name == "You" && players[0].isHuman
      ensures forall i :: 1 <= i < 4 ==> !players[i].isHuman
      ensures players[1].name == "Player 1" && players[2].name == "Player 2" && players[3].name == "Player 3"
      ensures Hands() == [[], [], [], []]
      ensures View() == Table(0, None, None, 0)
      ensures winner == null && !gameStarted
    {
      var you := new Player("You", true);
      var p1 := new Player("Player 1", false);
      var p2 := new Player("Player 2", false);
      var p3 := new Player("Player 3", false);
      players := [you, p1, p2, p3];
      currentPlayer := 0;
      lastHand := None;
      lastPlayer := None;
      passes := 0;
      winner := null;
      gameStarted := false;
      new;
      assert players[0] == you && players[1] == p1 && players[2] == p2 && players[3] == p3;
      assert you.Valid() && p1.Valid() && p2.Valid() && p3.Valid();
    }

    /** `create_deck`: for each suit in order, the values 3 to 15. */
    static method CreateDeck() returns (deck: seq<Card>)
      ensures deck == FullDeck()
    {
      deck := [];
      var s := 0;
      while s < 4
        invariant 0 <= s <= 4
        invariant deck == FullDeck()[..13 * s]
      {
        var value := 3;
        while value < 16
          invariant 3 <= value <= 16
          invariant deck == FullDeck()[..13 * s + value - 3]
        {
          DeckCardAt(s, value);
          deck := deck + [Card(SuitOf(s), value)];
          value := value + 1;
        }
        s := s + 1;
      }
    }

    /**
      `deal_cards`: the deck, rearranged by `order` in place of the shuffle,
      is dealt card by card with position i going to seat i mod 4; then the
      first seat holding the 3 of Spades gets the turn.
     */
    method DealCards(order: seq<int>)
      requires Valid() && IsShuffleOrder(order)
      modifies this, players
      ensures Valid() && gameStarted
      ensures Hands() == DealOnto(old(Hands()), Map(order, DeckCard))
      ensures currentPlayer == Opener(Hands(), old(currentPlayer))
      ensures lastHand == old(lastHand) && lastPlayer == old(lastPlayer)
      ensures passes == old(passes) && winner == old(winner)
      ensures old(Hands()) == [[], [], [], []] ==> FullDeal(Hands(), currentPlayer)
    {
      var deck := CreateDeck();
      var shuffled := Shuffle(deck, order);
      DealDeck(shuffled);
      FindOpener();
      label Opened:
      gameStarted := true;
      assert Hands() == old@Opened(Hands()) && View() == old@Opened(View()) && winner == old@Opened(winner);
      if old(Hands()) == [[], [], [], []] {
        FreshDeal(order, old(currentPlayer));
      }
    }

    /** The shuffle of `deal_cards`, with `order` standing for the random permutation: position i receives card `order[i]`. */
    static method Shuffle(deck: seq<Card>, order: seq<int>) returns (shuffled: seq<Card>)
      requires deck == FullDeck() && IsShuffleOrder(order)
      ensures shuffled == Map(order, DeckCard)
      ensures multiset(shuffled) == multiset(FullDeck())
    {
      ShuffleOrderInRange(order);
      shuffled := seq(52, i requires 0 <= i < 52 => deck[order[i]]);
      assert shuffled == Map(order, DeckCard);
      ShuffledDeckIsDeck(order);
    }

    /** The dealing loop of `deal_cards`: deck position i goes to seat i mod 4. */
    method DealDeck(d: seq<Card>)
      requires Valid()
      modifies players
      ensures Valid() && unchanged(this)
      ensures Hands() == DealOnto(old(Hands()), d)
    {
      ghost var held := Hands();
      var i := 0;
      assert d[..i] == [];
      while i < |d|
        invariant 0 <= i <= |d| && Valid()
        invariant Hands() == DealOnto(held, d[..i])
      {
        GiveCard(i % 4, d[i]);
        assert d[..i + 1][..i] == d[..i];
        i := i + 1;
      }
      assert d[..i] == d;
    }

    /** One step of the dealing loop: seat q adds card c with `add_card`; the other seats keep their hands. */
    method GiveCard(q: int, c: Card)
      requires Valid() && 0 <= q < 4
      modifies players[q]
      ensures Valid() && unchanged(this)
      ensures Hands() == old(Hands())[q := SortBy(old(Hands())[q] + [c], SortValue)]
    {
      ghost var before := Hands();
      players[q].AddCard(c);
      forall p | 0 <= p < 4 && p != q ensures players[p].cards == before[p] && players[p].Valid() {
        assert players[p] != players[q];
      }
      SeatsEqual(Hands(), before[q := SortBy(before[q] + [c], SortValue)]);
    }

    /** The search loop of `deal_cards`: the first seat holding the 3 of Spades gets the turn. */
    method FindOpener()
      requires Valid()
      modifies this
      ensures Valid() && Hands() == old(Hands())
      ensures currentPlayer == Opener(Hands(), old(currentPlayer))
      ensures lastHand == old(lastHand) && lastPlayer == old(lastPlayer)
      ensures passes == old(passes) && winner == old(winner) && gameStarted == old(gameStarted)
    {
      var p := 0;
      while p < 4
        invariant 0 <= p <= 4
        invariant Opener(Hands(), currentPlayer) == OpenerFrom(Hands(), p, currentPlayer)
        invariant currentPlayer == old(currentPlayer)
      {
        if players[p].Has3Spades() {
          currentPlayer := p;
          break;
        }
        p := p + 1;
      }
    }

    /** `get_valid_moves` for a seat's hand, against the combination on the table. */
    method GetValidMoves(player: Player) returns (moves: seq<seq<Card>>)
      requires Valid() && player in players
      ensures moves == ValidMoves(lastHand, player.cards)
    {
      if lastHand.None? {
        moves := ScanForOpening(player.cards);
      } else if lastHand.value.handType.Some? {
        moves := ScanWindows(player.cards, lastHand.value);
      } else {
        moves := [];
      }
    }

    /** The open-table branch of `get_valid_moves`: every 3 of Spades in the hand, on its own. */
    static method ScanForOpening(cards: seq<Card>) returns (moves: seq<seq<Card>>)
      ensures moves == OpeningMoves(cards)
    {
      moves := [];
      var i := 0;
      while i < |cards|
        invariant 0 <= i <= |cards|
        invariant moves == OpeningMoves(cards[..i])
      {
        assert cards[..i + 1][..i] == cards[..i];
        if cards[i].value == 3 && cards[i].suit == Spades {
          moves := moves + [[cards[i]]];
        }
        i := i + 1;
      }
      assert cards[..i] == cards;
    }

    /**
      The other branch of `get_valid_moves`: each run of neighbouring cards of
      the table combination's size that passes the shape test and beats it.
      A seat's hand is always sorted, which is what makes the shape test a
      shortcut rather than a filter.
     */
    static method ScanWindows(cards: seq<Card>, h: Hand) returns (moves: seq<seq<Card>>)
      requires Sorted(cards, SortValue) && h.handType.Some?
      ensures moves == BeatingWindows(cards, Size(h.handType.value), h, WindowCount(cards, Size(h.handType.value)))
    {
      var t := h.handType.value;
      var k := Size(t);
      moves := [];
      var i := 0;
      while i < |cards| - (k - 1)
        invariant 0 <= i <= WindowCount(cards, k)
        invariant moves == BeatingWindows(cards, k, h, i)
      {
        moves := TryWindow(cards, h, i, moves);
        i := i + 1;
      }
      assert i == WindowCount(cards, k);
    }

    /** The body of the window loop: the window at i is kept when it passes the shape test and beats the table. */
    static method TryWindow(cards: seq<Card>, h: Hand, i: nat, moves: seq<seq<Card>>) returns (moves': seq<seq<Card>>)
      requires Sorted(cards, SortValue) && h.handType.Some?
      requires i + Size(h.handType.value) <= |cards|
      requires moves == BeatingWindows(cards, Size(h.handType.value), h, i)
      ensures moves' == BeatingWindows(cards, Size(h.handType.value), h, i + 1)
    {
      var t := h.handType.value;
      var w := Window(cards, i, Size(t));
      WindowStep(cards, h, i);
      moves' := moves;
      if WindowShape(t, w) {
        var hand := MakeHand(w);
        if CanBeat(hand, Some(h)) {
          moves' := moves + [w];
        }
      }
    }

    /**
      `play_cards`: a hand that beats the table (or any hand on an open table)
      is taken out of the seat's cards and put on the table; the seat wins if
      its hand is now empty, otherwise the turn moves on. Any other hand is
      ignored. The seat is not checked against the turn.
     */
    method PlayCards(player: Player, cards: seq<Card>)
      requires Valid() && player in players
      modifies this, player
      ensures Valid()
      ensures View() == AfterPlay(old(View()), MakeHand(cards), player.cards == [])
      ensures CanBeat(MakeHand(cards), old(lastHand)) ==>
        && player.cards == RemoveEach(old(player.cards), cards)
        && winner == if player.cards == [] then player else old(winner)
      ensures !CanBeat(MakeHand(cards), old(lastHand)) ==>
        player.cards == old(player.cards) && winner == old(winner)
      ensures gameStarted == old(gameStarted)
    {
      var hand := MakeHand(cards);
      if lastHand.None? || CanBeat(hand, lastHand) {
        ghost var k :| 0 <= k < 4 && players[k] == player;
        Discard(player, cards, k);
        TakeLead(player, hand);
      }
    }

    /** The rest of an accepted `play_cards`: the hand goes on the table, and the seat wins or the turn moves on. */
    method TakeLead(player: Player, hand: Hand)
      requires Valid() && player in players && CanBeat(hand, lastHand)
      modifies this
      ensures Valid()
      ensures View() == AfterPlay(old(View()), hand, player.cards == [])
      ensures winner == if player.cards == [] then player else old(winner)
      ensures gameStarted == old(gameStarted)
    {
      lastHand := Some(hand);
      lastPlayer := Some(currentPlayer);
      passes := 0;
      if |player.cards| == 0 {
        winner := player;
        return;
      }
      NextTurn();
    }

    /** The `remove_cards` step of `play_cards`: seat k drops the cards played; no other seat changes. */
    method Discard(player: Player, cards: seq<Card>, ghost k: int)
      requires Valid() && 0 <= k < 4 && players[k] == player
      modifies player
      ensures Valid() && unchanged(this)
      ensures player.cards == RemoveEach(old(player.cards), cards)
      ensures Hands() == old(Hands())[k := player.cards]
    {
      ghost var before := Hands();
      player.RemoveCards(cards);
      forall p | 0 <= p < 4 && p != k ensures players[p].cards == before[p] && players[p].Valid() {
        assert players[p] != players[k];
      }
      SeatsEqual(Hands(), before[k := player.cards]);
    }

    /** `next_turn`: the next seat plays; after three passes in a row the table is cleared. */
    method NextTurn()
      modifies this
      ensures View() == AfterNextTurn(old(View()))
      ensures winner == old(winner) && gameStarted == old(gameStarted)
    {
      currentPlayer := (currentPlayer - 1) % 4;
      if passes >= 3 {
        lastHand := None;
        passes := 0;
      }
    }

    /** `ai_play`: a computer seat passes when it is offered no move, and otherwise plays the first move offered. */
    method AiPlay(player: Player)
      requires Valid() && player in players
      modifies this, player
      ensures Valid() && gameStarted == old(gameStarted)
      ensures var moves := ValidMoves(old(lastHand), old(player.cards));
        if moves == [] then
          && View() == AfterPass(old(View()))
          && player.cards == old(player.cards) && winner == old(winner)
        else
          && View() == AfterPlay(old(View()), MakeHand(moves[0]), player.cards == [])
          && player.cards == RemoveEach(old(player.cards), moves[0])
          && winner == if player.cards == [] then player else old(winner)
    {
      var moves := GetValidMoves(player);
      if |moves| == 0 {
        Pass();
        return;
      }
      AcceptedMove(lastHand, player.cards, moves[0]);
      PlayCards(player, moves[0]);
    }

    /** The pass path shared by the computer seats and the human's pass button. */
    method Pass()
      modifies this
      ensures View() == AfterPass(old(View()))
      ensures winner == old(winner) && gameStarted == old(gameStarted)
      ensures old(Valid()) ==> Valid()
    {
      passes := passes + 1;
      NextTurn();
      if old(Valid()) {
        PassKeepsTableInv(old(View()));
      }
    }
  }

  /** Every move `get_valid_moves` offers beats the combination on the table, so `play_cards` accepts it. */
  lemma AcceptedMove(last: Option<Hand>, cards: seq<Card>, m: seq<Card>)
    requires m in ValidMoves(last, cards)
    ensures CanBeat(MakeHand(m), last)
  {
    if last.Some? {
      ValidMovesSound(last.value, cards, m);
    }
  }

  /**
    When exactly one of four hands holds the 3 of Spades and `p` is the
    first seat holding it, `p` is the only seat holding it.
   */
  lemma OnlyOpenerHolds(hs: seq<seq<Card>>, p: int)
    requires |hs| == 4
    requires (if ThreeOfSpades in hs[0] then 1 else 0) + (if ThreeOfSpades in hs[1] then 1 else 0)
           + (if ThreeOfSpades in hs[2] then 1 else 0) + (if ThreeOfSpades in hs[3] then 1 else 0) == 1
    requires 0 <= p < 4 && ThreeOfSpades in hs[p]
    ensures forall q :: 0 <= q < 4 ==> (ThreeOfSpades in hs[q] <==> q == p)
  {
  }

  /** Taking cards out of one seat's hand keeps the four hands free of duplicates. */
  lemma DiscardKeepsDisjoint(hs: seq<seq<Card>>, k: int, cards: seq<Card>)
    requires |hs| == 4 && 0 <= k < 4
    requires NoDup(Concat4(hs[0], hs[1], hs[2], hs[3]))
    ensures var gs := hs[k := RemoveEach(hs[k], cards)];
      NoDup(Concat4(gs[0], gs[1], gs[2], gs[3]))
  {
    var gs := hs[k := RemoveEach(hs[k], cards)];
    RemoveEachMultiset(hs[k], cards);
    assert multiset(gs[k]) <= multiset(hs[k]);
    assert multiset(gs[0]) <= multiset(hs[0]) && multiset(gs[1]) <= multiset(hs[1]);
    assert multiset(gs[2]) <= multiset(hs[2]) && multiset(gs[3]) <= multiset(hs[3]);
    SmallerHandsKeepNoDup(hs[0], hs[1], hs[2], hs[3], gs[0], gs[1], gs[2], gs[3]);
  }

  /** Four hands are equal when they are equal seat by seat. */
  lemma SeatsEqual(a: seq<seq<Card>>, b: seq<seq<Card>>)
    requires |a| == 4 && |b| == 4
    requires a[0] == b[0] && a[1] == b[1] && a[2] == b[2] && a[3] == b[3]
    ensures a == b
  {
    assert a == [b[0], b[1], b[2], b[3]];
  }

  /**
    Dealing card i to seat i mod 4 with `add_card` (append, then sort) keeps
    that seat's hand the sorted list of what it held plus its share so far.
   */
  lemma DealStepTo(h: seq<Card>, d: seq<Card>, i: nat, p: nat)
    requires i < |d|
    ensures SortBy(h + DealtTo(d[..i + 1], p), SortValue) ==
      if i % 4 == p then SortBy(SortBy(h + DealtTo(d[..i], p), SortValue) + [d[i]], SortValue)
      else SortBy(h + DealtTo(d[..i], p), SortValue)
  {
    assert d[..i + 1][..i] == d[..i];
    var before := h + DealtTo(d[..i], p);
    if i % 4 == p {
      assert h + DealtTo(d[..i + 1], p) == before + [d[i]];
      SortByAppend(before, d[i], SortValue);
      SortByAppend(SortBy(before, SortValue), d[i], SortValue);
      SortBySortedIsIdentity(SortBy(before, SortValue), SortValue);
    } else {
      assert h + DealtTo(d[..i + 1], p) == before;
    }
  }

  /**
    Dealt onto a sorted hand, a seat ends with the sorted list of what it
    held and the cards at the deck positions that are its own mod 4.
   */
  lemma {:induction false} DealOntoSorts(held: seq<seq<Card>>, d: seq<Card>, p: nat)
    requires |held| == 4 && p < 4 && Sorted(held[p], SortValue)
    ensures DealOnto(held, d)[p] == SortBy(held[p] + DealtTo(d, p), SortValue)
    decreases |d|
  {
    if |d| == 0 {
      assert held[p] + DealtTo(d, p) == held[p];
      SortBySortedIsIdentity(held[p], SortValue);
    } else {
      var i := |d| - 1;
      DealOntoSorts(held, d[..i], p);
      DealStepTo(held[p], d, i, p);
      assert d[..i + 1] == d;
    }
  }

  /** One step of the window scan: the window at i is collected when it passes the shape test and beats the table. */
  lemma WindowStep(cards: seq<Card>, h: Hand, i: nat)
    requires Sorted(cards, SortValue) && h.handType.Some?
    requires i + Size(h.handType.value) <= |cards|
    ensures var t := h.handType.value; var w := Window(cards, i, Size(t));
      BeatingWindows(cards, Size(t), h, i + 1) ==
        BeatingWindows(cards, Size(t), h, i) + if WindowShape(t, w) && CanBeat(MakeHand(w), Some(h)) then [w] else []
  {
    var t := h.handType.value;
    if !WindowShape(t, Window(cards, i, Size(t))) {
      ShapeFailsNeverBeats(cards, i, h);
    }
  }

  /** In a sorted hand, a window that fails the shape test cannot beat the table. */
  lemma ShapeFailsNeverBeats(cards: seq<Card>, i: nat, h: Hand)
    requires Sorted(cards, SortValue) && h.handType.Some?
    requires i + Size(h.handType.value) <= |cards|
    requires !WindowShape(h.handType.value, Window(cards, i, Size(h.handType.value)))
    ensures !CanBeat(MakeHand(Window(cards, i, Size(h.handType.value))), Some(h))
  {
    var t := h.handType.value;
    var w := Window(cards, i, Size(t));
    assert Sorted(w, SortValue);
    if MakeHand(w).handType == Some(t) {
      ShapeOfSortedWindow(t, w);
    }
  }
}
