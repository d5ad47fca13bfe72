/**
  A seat at the table (`Player`): the cards it holds, kept sorted as cards are
  dealt in and played out.
 */
module Players {
  import opened Sequences
  import opened Cards

  /** `list.remove(c)`: drops the first card equal to c. */
  function RemoveFirst(s: seq<Card>, c: Card): (r: seq<Card>)
    requires c in s
    ensures |r| == |s| - 1
  {
    if s[0] == c then s[1..]
    else
      assert c in s[1..];
      [s[0]] + RemoveFirst(s[1..], c)
  }

  /** `list.remove(c)` takes away one occurrence of c and keeps every other card. */
  lemma {:induction false} RemoveFirstPermutes(s: seq<Card>, c: Card)
    requires c in s
    ensures multiset(RemoveFirst(s, c)) == multiset(s) - multiset{c}
  {
    assert s == [s[0]] + s[1..];
    if s[0] != c {
      RemoveFirstPermutes(s[1..], c);
    }
  }

  /** The hand that `remove_cards(cards)` leaves of s: one occurrence of each listed card that is still there is dropped. */
  function RemoveEach(s: seq<Card>, cards: seq<Card>): seq<Card>
  {
    if |cards| == 0 then s
    else
      var rest := RemoveEach(s, cards[..|cards| - 1]);
      var c := cards[|cards| - 1];
      if c in rest then RemoveFirst(rest, c) else rest
  }

  /** Removing a card keeps a sorted hand sorted. */
  lemma {:induction false} RemoveFirstKeepsSorted(s: seq<Card>, c: Card)
    requires c in s && Sorted(s, SortValue)
    ensures Sorted(RemoveFirst(s, c), SortValue)
  {
    if s[0] != c {
      var tail := s[1..];
      assert Sorted(tail, SortValue);
      RemoveFirstKeepsSorted(tail, c);
      var r' := RemoveFirst(tail, c);
      assert forall i :: 0 <= i < |r'| ==> SortValue(s[0]) <= SortValue(r'[i]) by {
        RemoveFirstPermutes(tail, c);
        forall i | 0 <= i < |r'| ensures SortValue(s[0]) <= SortValue(r'[i]) {
          assert r'[i] in multiset(r');
          assert r'[i] in multiset(tail);
          var j :| 0 <= j < |tail| && tail[j] == r'[i];
          assert s[j + 1] == r'[i];
        }
      }
      SortedCons(s[0], r', SortValue);
    }
  }

  /** `remove_cards` takes away exactly the listed cards the hand holds, one occurrence each, and keeps every other card. */
  lemma {:induction false} RemoveEachMultiset(s: seq<Card>, cards: seq<Card>)
    ensures multiset(RemoveEach(s, cards)) == multiset(s) - multiset(cards)
  {
    if |cards| > 0 {
      var init, c := cards[..|cards| - 1], cards[|cards| - 1];
      assert cards == init + [c];
      RemoveEachMultiset(s, init);
      var rest := RemoveEach(s, init);
      if c in rest {
        RemoveFirstPermutes(rest, c);
        assert multiset(RemoveEach(s, cards)) == multiset(rest) - multiset{c};
      } else {
        assert multiset(rest)[c] == 0;
      }
    }
  }

  /** `remove_cards` keeps a sorted hand sorted. */
  lemma {:induction false} RemoveEachKeepsSorted(s: seq<Card>, cards: seq<Card>)
    requires Sorted(s, SortValue)
    ensures Sorted(RemoveEach(s, cards), SortValue)
  {
    if |cards| > 0 {
      var init, c := cards[..|cards| - 1], cards[|cards| - 1];
      RemoveEachKeepsSorted(s, init);
      var rest := RemoveEach(s, init);
      if c in rest {
        RemoveFirstKeepsSorted(rest, c);
      }
    }
  }

  /** `add_card` on a sorted hand puts the card in its place and adds exactly that card. */
  lemma AddCardInserts(hand: seq<Card>, card: Card)
    requires Sorted(hand, SortValue)
    ensures SortBy(hand + [card], SortValue) == Insert(hand, card, SortValue)
    ensures multiset(SortBy(hand + [card], SortValue)) == multiset(hand) + multiset{card}
  {
    SortByPermutes(hand + [card], SortValue);
    SortByAppend(hand, card, SortValue);
    SortBySortedIsIdentity(hand, SortValue);
  }

  class Player {
    const name: string
    const isHuman: bool
    var cards: seq<Card>

    /** The hand is always sorted: dealing sorts it and playing only removes cards. */
    ghost predicate Valid()
      reads this
    {
      Sorted(cards, SortValue)
    }

    constructor (name: string, isHuman: bool)
      ensures this.name == name && this.isHuman == isHuman
      ensures cards == [] && Valid()
    {
      this.name := name;
      this.isHuman := isHuman;
      cards := [];
    }

    /** `add_card`: append, then sort. */
    method AddCard(card: Card)
      modifies this
      ensures cards == SortBy(old(cards) + [card], SortValue)
      ensures Valid()
    {
      cards := cards + [card];
      cards := SortBy(cards, SortValue);
    }

    /** `remove_cards`: for each listed card the hand holds, drop its first occurrence. */
    method RemoveCards(toRemove: seq<Card>)
      modifies this
      ensures cards == RemoveEach(old(cards), toRemove)
      ensures old(Valid()) ==> Valid()
    {
      var i := 0;
      while i < |toRemove|
        invariant 0 <= i <= |toRemove|
        invariant cards == RemoveEach(old(cards), toRemove[..i])
      {
        var card := toRemove[i];
        assert toRemove[..i + 1][..i] == toRemove[..i];
        if card in cards {
          cards := RemoveFirst(cards, card);
        }
        i := i + 1;
      }
      assert toRemove[..i] == toRemove;
      if old(Valid()) {
        RemoveEachKeepsSorted(old(cards), toRemove);
      }
    }

    /** `has_3_spades`. */
    function Has3Spades(): (b: bool)
      reads this
      ensures b <==> ThreeOfSpades in cards
    {
      exists i :: 0 <= i < |cards| && cards[i].value == 3 && cards[i].suit == Spades
    }
  }
}
