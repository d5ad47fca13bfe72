/**
  What `get_valid_moves` offers: on an open table only the 3 of Spades on its
  own; otherwise every run of neighbouring cards in the sorted hand that has
  the size of the table's combination and beats it, in scan order.
 */
module Moves {
  import opened Wrappers
  import opened Sequences
  import opened Cards
  import opened Hands

  /** One `[c]` for every 3 of Spades in the hand, in hand order. */
  function OpeningMoves(cards: seq<Card>): seq<seq<Card>>
  {
    if |cards| == 0 then []
    else
      var last := cards[|cards| - 1];
      OpeningMoves(cards[..|cards| - 1]) + if last == ThreeOfSpades then [[last]] else []
  }

  /** The k neighbouring cards starting at position i: `cards[i:i+k]`. */
  function Window(cards: seq<Card>, i: nat, k: nat): (w: seq<Card>)
    requires i + k <= |cards|
    ensures |w| == k
  {
    cards[i..i + k]
  }

  /** The windows `cards[i:i+k]`, i < n, that beat h, in scan order. */
  function BeatingWindows(cards: seq<Card>, k: nat, h: Hand, n: nat): seq<seq<Card>>
    requires n == 0 || n - 1 + k <= |cards|
  {
    if n == 0 then []
    else
      var w := Window(cards, n - 1, k);
      BeatingWindows(cards, k, h, n - 1) + if CanBeat(MakeHand(w), Some(h)) then [w] else []
  }

  /** How many windows of k neighbouring cards a hand has: `range(len(cards) - (k - 1))`. */
  function WindowCount(cards: seq<Card>, k: nat): nat
  {
    if |cards| >= k then |cards| - k + 1 else 0
  }

  /** The moves `get_valid_moves` returns for a hand, given the combination on the table. */
  function ValidMoves(last: Option<Hand>, cards: seq<Card>): seq<seq<Card>>
  {
    match last
    case None => OpeningMoves(cards)
    case Some(h) =>
      match h.handType
      case None => []
      case Some(t) => BeatingWindows(cards, Size(t), h, WindowCount(cards, Size(t)))
  }

  /**
    The test each branch of `get_valid_moves` makes on a window before it
    builds the hand: equal values for the groups, five distinct values that
    sorted step up by one for the straight.
   */
  predicate WindowShape(t: HandType, w: seq<Card>)
    requires |w| == Size(t)
  {
    match t
    case Single => true
    case Pair => w[0].value == w[1].value
    case Triple => w[0].value == w[1].value == w[2].value
    case Quad => w[0].value == w[1].value == w[2].value == w[3].value
    case Straight =>
      |ValueSet(w)| == 5 && IsConsecutive(SortBy(Values(w), Id))
  }

  /** `set(c.value for c in w)`. */
  function ValueSet(w: seq<Card>): set<int>
  {
    set c | c in w :: c.value
  }

  // ---------------------------------------------------------------------------

  /** On an open table the moves are all `[3 of Spades]`, one per copy the hand holds. */
  lemma {:induction false} OpeningMovesCount(cards: seq<Card>)
    ensures |OpeningMoves(cards)| == multiset(cards)[ThreeOfSpades]
    ensures forall m :: m in OpeningMoves(cards) ==> m == [ThreeOfSpades]
  {
    if |cards| > 0 {
      var init := cards[..|cards| - 1];
      assert cards == init + [cards[|cards| - 1]];
      OpeningMovesCount(init);
    }
  }

  /** On an open table a hand without repeated cards may play exactly `[3 of Spades]` if it holds it, and nothing otherwise. */
  lemma OpeningMovesExact(cards: seq<Card>)
    requires NoDup(cards)
    ensures OpeningMoves(cards) == if ThreeOfSpades in cards then [[ThreeOfSpades]] else []
  {
    OpeningMovesCount(cards);
    var moves := OpeningMoves(cards);
    if |moves| == 1 {
      assert moves[0] in moves;
    }
  }

  lemma {:induction false} BeatingWindowsSound(cards: seq<Card>, k: nat, h: Hand, n: nat, m: seq<Card>)
    requires n == 0 || n - 1 + k <= |cards|
    requires m in BeatingWindows(cards, k, h, n)
    ensures exists i :: 0 <= i < n && i + k <= |cards| && m == Window(cards, i, k)
    ensures CanBeat(MakeHand(m), Some(h))
  {
    var w := Window(cards, n - 1, k);
    if m == w && CanBeat(MakeHand(w), Some(h)) {
    } else {
      BeatingWindowsSound(cards, k, h, n - 1, m);
    }
  }

  lemma {:induction false} BeatingWindowsComplete(cards: seq<Card>, k: nat, h: Hand, n: nat, i: nat)
    requires n == 0 || n - 1 + k <= |cards|
    requires i < n && CanBeat(MakeHand(Window(cards, i, k)), Some(h))
    ensures Window(cards, i, k) in BeatingWindows(cards, k, h, n)
  {
    if i < n - 1 {
      BeatingWindowsComplete(cards, k, h, n - 1, i);
    }
  }

  /** m is the run of |m| neighbouring cards starting somewhere in the hand. */
  ghost predicate IsWindowOf(m: seq<Card>, cards: seq<Card>) {
    exists i :: 0 <= i && i + |m| <= |cards| && m == Window(cards, i, |m|)
  }

  /** Every move offered against a combination is a window of the hand, of the same type and size, that beats it. */
  lemma ValidMovesSound(h: Hand, cards: seq<Card>, m: seq<Card>)
    requires m in ValidMoves(Some(h), cards)
    ensures IsWindowOf(m, cards)
    ensures |m| == |h.cards|
    ensures MakeHand(m).handType == h.handType
    ensures CanBeat(MakeHand(m), Some(h))
  {
    var t := h.handType.value;
    BeatingWindowsSound(cards, Size(t), h, WindowCount(cards, Size(t)), m);
    assert |MakeHand(m).cards| == |multiset(m)| == |m|;
  }

  /** Every window of the hand of the table combination's size that beats it is offered. */
  lemma ValidMovesComplete(h: Hand, cards: seq<Card>, i: nat)
    requires h.handType.Some? && |h.cards| == Size(h.handType.value)
    requires i + |h.cards| <= |cards|
    requires CanBeat(MakeHand(Window(cards, i, |h.cards|)), Some(h))
    ensures Window(cards, i, |h.cards|) in ValidMoves(Some(h), cards)
  {
    var k := |h.cards|;
    BeatingWindowsComplete(cards, k, h, WindowCount(cards, k), i);
  }

  /** Every offered move is made of cards the hand holds. */
  lemma MovesAreHeld(last: Option<Hand>, cards: seq<Card>, m: seq<Card>)
    requires m in ValidMoves(last, cards)
    ensures multiset(m) <= multiset(cards)
  {
    if last.None? {
      OpeningMovesCount(cards);
      assert m == [ThreeOfSpades];
      assert multiset(cards)[ThreeOfSpades] >= 1;
    } else {
      ValidMovesSound(last.value, cards, m);
      var i :| 0 <= i && i + |m| <= |cards| && m == Window(cards, i, |m|);
      WindowIsHeld(cards, i, |m|);
    }
  }

  lemma WindowIsHeld(cards: seq<Card>, i: nat, k: nat)
    requires i + k <= |cards|
    ensures multiset(Window(cards, i, k)) <= multiset(cards)
  {
    assert cards == cards[..i] + Window(cards, i, k) + cards[i + k..];
  }

  lemma ValueSetIsRun(w: seq<Card>, m: int)
    requires multiset(Values(w)) == multiset(RunFrom(m, 5))
    ensures ValueSet(w) == {m, m + 1, m + 2, m + 3, m + 4}
  {
    var run := RunFrom(m, 5);
    forall x | x in ValueSet(w) ensures x in {m, m + 1, m + 2, m + 3, m + 4} {
      var i :| 0 <= i < |w| && w[i].value == x;
      assert Values(w)[i] == x;
      assert x in multiset(run);
    }
    forall x | x in {m, m + 1, m + 2, m + 3, m + 4} ensures x in ValueSet(w) {
      assert run[x - m] == x;
      assert x in multiset(Values(w));
      var i :| 0 <= i < |w| && Values(w)[i] == x;
      assert w[i] in w;
    }
  }

  /** A straight has five distinct values. */
  lemma StraightWindowDistinct(w: seq<Card>)
    requires IsStraight(w)
    ensures |ValueSet(w)| == 5
  {
    var v := SortBy(Values(w), Id);
    SortByPermutes(Values(w), Id);
    assert |v| == |multiset(v)| == |multiset(Values(w))| == 5;
    ConsecutiveIsRun(v);
    ValueSetIsRun(w, v[0]);
  }

  /** A sorted window that makes a hand of type t passes the test the source makes before building it. */
  lemma ShapeOfSortedWindow(t: HandType, w: seq<Card>)
    requires |w| == Size(t) && Sorted(w, SortValue)
    requires MakeHand(w).handType == Some(t)
    ensures WindowShape(t, w)
  {
    assert DetermineType(w) == Some(t) by {
      SortBySortedIsIdentity(w, SortValue);
    }
    if t == Straight {
      StraightWindowDistinct(w);
    } else if t == Triple || t == Quad {
      assert AllSameValue(w);
    }
  }
}
