/**
  The combination classifier and comparator (`Hand`): a played set of cards is
  sorted, tagged Single, Pair, Triple, Quad, Straight or nothing, given an
  integer rank, and compared against the combination on the table.
 */
module Hands {
  import opened Wrappers
  import opened Sequences
  import opened Cards

  datatype HandType = Single | Pair | Triple | Quad | Straight

  /** The number of cards of each combination; it equals the enumeration value. */
  function Size(t: HandType): (n: nat)
    ensures 1 <= n <= 5
  {
    match t
    case Single => 1
    case Pair => 2
    case Triple => 3
    case Quad => 4
    case Straight => 5
  }

  /** A hand keeps its cards sorted, its type (`None` when no shape matches) and its rank. */
  datatype Hand = Hand(cards: seq<Card>, handType: Option<HandType>, rank: int)

  function ValueOf(c: Card): int { c.value }

  function SuitValueOf(c: Card): int { SuitValue(c.suit) }

  /** `[c.value for c in cards]`. */
  function Values(cards: seq<Card>): seq<int> { Map(cards, ValueOf) }

  /** Python's `max` over a non-empty list of integers. */
  function Max(s: seq<int>): (m: int)
    requires |s| > 0
    ensures m in s
    ensures forall x :: x in s ==> x <= m
  {
    if |s| == 1 then s[0]
    else
      var m' := Max(s[1..]);
      assert forall x :: x in s ==> x == s[0] || x in s[1..];
      if s[0] >= m' then s[0] else m'
  }

  /** Every card has the value of the first one. */
  predicate AllSameValue(cards: seq<Card>) {
    forall i :: 0 <= i < |cards| ==> cards[i].value == cards[0].value
  }

  /** Each value is one more than the one before it. */
  predicate IsConsecutive(v: seq<int>) {
    forall i :: 1 <= i < |v| ==> v[i] == v[i - 1] + 1
  }

  /** `_is_straight`: five cards whose values, sorted, step up by one. */
  predicate IsStraight(cards: seq<Card>) {
    |cards| == 5 && IsConsecutive(SortBy(Values(cards), Id))
  }

  /** `_determine_type` on the sorted cards of a hand. */
  function DetermineType(cards: seq<Card>): (r: Option<HandType>)
    ensures r.Some? ==> |cards| == Size(r.value)
  {
    if |cards| == 1 then Some(Single)
    else if |cards| == 2 && cards[0].value == cards[1].value then Some(Pair)
    else if |cards| == 3 && AllSameValue(cards) then Some(Triple)
    else if |cards| == 4 && AllSameValue(cards) then Some(Quad)
    else if |cards| == 5 && IsStraight(cards) then Some(Straight)
    else None
  }

  /** `_get_rank`, given the type `_determine_type` computed for the same cards. */
  function Rank(cards: seq<Card>, t: Option<HandType>): int
    requires t == DetermineType(cards)
  {
    match t
    case Some(Single) => SortValue(cards[0])
    case Some(Pair) => cards[0].value * 100 + Max(Map(cards, SuitValueOf))
    case Some(Triple) => cards[0].value * 1000
    case Some(Quad) => cards[0].value * 10000
    case Some(Straight) => Max(Values(cards)) * 100
    case None => 0
  }

  /** `Hand(cards)`: sort, classify, rank. */
  function MakeHand(cards: seq<Card>): (h: Hand)
    ensures Sorted(h.cards, SortValue)
    ensures multiset(h.cards) == multiset(cards)
    ensures h.handType.Some? ==> |cards| == Size(h.handType.value)
  {
    SortByPermutes(cards, SortValue);
    var sorted := SortBy(cards, SortValue);
    var t := DetermineType(sorted);
    Hand(sorted, t, Rank(sorted, t))
  }

  /** `can_beat`: anything beats an empty table; otherwise same type, same size, higher rank. */
  predicate CanBeat(h: Hand, other: Option<Hand>) {
    if other.None? then true
    else if h.handType != other.value.handType then false
    else if |h.cards| != |other.value.cards| then false
    else h.rank > other.value.rank
  }

  // ---------------------------------------------------------------------------
  // Classification, stated on the unsorted input

  /** The values 3, 4, 5, ... of a run of n starting at m. */
  function RunFrom(m: int, n: nat): (r: seq<int>)
    ensures |r| == n
    ensures forall i :: 0 <= i < n ==> r[i] == m + i
  {
    seq(n, i => m + i)
  }

  /** The cards' values are m, m + 1, ..., m + |cards| - 1 in some order. */
  ghost predicate IsRunOfValues(cards: seq<Card>) {
    exists m :: multiset(Values(cards)) == multiset(RunFrom(m, |cards|))
  }

  lemma SameValuePermutation(a: seq<Card>, b: seq<Card>)
    requires multiset(a) == multiset(b)
    ensures AllSameValue(a) <==> AllSameValue(b)
  {
    forall a: seq<Card>, b: seq<Card> | multiset(a) == multiset(b) && AllSameValue(a)
      ensures AllSameValue(b)
    {
      forall i | 0 <= i < |b| ensures b[i].value == a[0].value {
        assert b[i] in multiset(a);
        var k :| 0 <= k < |a| && a[k] == b[i];
      }
    }
  }

  lemma {:induction false} ConsecutiveIsRun(v: seq<int>)
    requires |v| > 0 && IsConsecutive(v)
    ensures v == RunFrom(v[0], |v|)
  {
    if |v| > 1 {
      var init := v[..|v| - 1];
      assert IsConsecutive(init) by {
        forall i | 1 <= i < |init| ensures init[i] == init[i - 1] + 1 {
          assert init[i] == v[i] && init[i - 1] == v[i - 1];
        }
      }
      ConsecutiveIsRun(init);
      assert v[|v| - 1] == v[|v| - 2] + 1;
      assert v == init + [v[|v| - 1]];
    }
  }

  lemma SortedValuesOfHand(cards: seq<Card>)
    ensures multiset(SortBy(Values(MakeHand(cards).cards), Id)) == multiset(Values(cards))
  {
    MapPermutation(MakeHand(cards).cards, cards, ValueOf);
    SortByPermutes(Values(MakeHand(cards).cards), Id);
  }

  /** A hand is a Single exactly when it has one card. */
  lemma ClassifySingle(cards: seq<Card>)
    ensures MakeHand(cards).handType == Some(Single) <==> |cards| == 1
  {
  }

  /** A hand is a Pair, Triple or Quad exactly when it has 2, 3 or 4 cards of one value. */
  lemma ClassifyGroup(cards: seq<Card>, t: HandType)
    requires t == Pair || t == Triple || t == Quad
    ensures MakeHand(cards).handType == Some(t) <==> |cards| == Size(t) && AllSameValue(cards)
  {
    var s := MakeHand(cards).cards;
    assert |s| == |multiset(s)| == |multiset(cards)| == |cards|;
    SameValuePermutation(s, cards);
  }

  lemma StraightHasRunOfValues(cards: seq<Card>)
    requires MakeHand(cards).handType == Some(Straight)
    ensures |cards| == 5 && IsRunOfValues(cards)
  {
    var s := MakeHand(cards).cards;
    var v := SortBy(Values(s), Id);
    assert IsStraight(s);
    SortByPermutes(Values(s), Id);
    assert |v| == |multiset(v)| == |multiset(Values(s))| == 5;
    ConsecutiveIsRun(v);
    SortedValuesOfHand(cards);
    assert multiset(Values(cards)) == multiset(RunFrom(v[0], 5));
  }

  lemma RunOfValuesIsStraight(cards: seq<Card>, m: int)
    requires |cards| == 5
    requires multiset(Values(cards)) == multiset(RunFrom(m, 5))
    ensures MakeHand(cards).handType == Some(Straight)
  {
    var s := MakeHand(cards).cards;
    var v := SortBy(Values(s), Id);
    SortedValuesOfHand(cards);
    assert Sorted(RunFrom(m, 5), Id);
    SortedUnique(v, RunFrom(m, 5), Id);
    assert IsConsecutive(v);
    assert |s| == |multiset(s)| == |multiset(cards)| == 5;
  }

  /** A hand is a Straight exactly when it has five cards whose values form a run without gaps. */
  lemma ClassifyStraight(cards: seq<Card>)
    ensures MakeHand(cards).handType == Some(Straight) <==> |cards| == 5 && IsRunOfValues(cards)
  {
    if MakeHand(cards).handType == Some(Straight) {
      StraightHasRunOfValues(cards);
    }
    if |cards| == 5 && IsRunOfValues(cards) {
      var m :| multiset(Values(cards)) == multiset(RunFrom(m, 5));
      RunOfValuesIsStraight(cards, m);
    }
  }

  /** A hand has no type exactly when none of the five shapes fits its cards. */
  lemma ClassifyNone(cards: seq<Card>)
    ensures MakeHand(cards).handType == None <==>
      && |cards| != 1
      && !(2 <= |cards| <= 4 && AllSameValue(cards))
      && !(|cards| == 5 && IsRunOfValues(cards))
  {
    ClassifySingle(cards);
    ClassifyGroup(cards, Pair);
    ClassifyGroup(cards, Triple);
    ClassifyGroup(cards, Quad);
    ClassifyStraight(cards);
  }

  /** The same deck cards in any order make the same hand. */
  lemma MakeHandPermutation(a: seq<Card>, b: seq<Card>)
    requires forall i :: 0 <= i < |a| ==> ValidCard(a[i])
    requires multiset(a) == multiset(b)
    ensures MakeHand(a) == MakeHand(b)
  {
    forall x, y | x in a && y in a && SortValue(x) == SortValue(y) ensures x == y {
      SortValueInjective(x, y);
    }
    SortByPermutation(a, b, SortValue);
  }

  /** Building a hand from the cards of a hand gives the same hand back. */
  lemma MakeHandIdempotent(cards: seq<Card>)
    ensures MakeHand(MakeHand(cards).cards) == MakeHand(cards)
  {
    SortBySortedIsIdentity(MakeHand(cards).cards, SortValue);
  }

  // ---------------------------------------------------------------------------
  // Comparison

  /** `can_beat` is a strict order: irreflexive, asymmetric and transitive; an empty table is always beaten. */
  lemma CanBeatIsStrictOrder(a: Hand, b: Hand, c: Hand)
    ensures CanBeat(a, None)
    ensures !CanBeat(a, Some(a))
    ensures CanBeat(a, Some(b)) ==> !CanBeat(b, Some(a))
    ensures CanBeat(a, Some(b)) && CanBeat(b, Some(c)) ==> CanBeat(a, Some(c))
  {
  }

  /** Hands of different types or sizes never beat each other. */
  lemma DifferentShapesNeverBeat(a: Hand, b: Hand)
    requires a.handType != b.handType || |a.cards| != |b.cards|
    ensures !CanBeat(a, Some(b)) && !CanBeat(b, Some(a))
  {
  }

  /** One single beats another exactly when its card is higher. */
  lemma SinglesCompareAsCards(a: Card, b: Card)
    ensures CanBeat(MakeHand([a]), Some(MakeHand([b]))) <==> Less(b, a)
  {
    assert SortBy([a], SortValue) == [a];
    assert SortBy([b], SortValue) == [b];
  }

  lemma MaxPermutation(a: seq<int>, b: seq<int>)
    requires |a| > 0 && multiset(a) == multiset(b)
    ensures |b| > 0 && Max(a) == Max(b)
  {
    assert a[0] in multiset(b);
    assert Max(a) in multiset(b) && Max(b) in multiset(a);
    assert Max(a) in b && Max(b) in a;
  }

  /** The highest suit among a hand's cards. */
  function TopSuit(cards: seq<Card>): (r: int)
    requires |cards| > 0
    ensures 0 <= r <= 3
    ensures exists i :: 0 <= i < |cards| && r == SuitValue(cards[i].suit)
  {
    var suits := Map(cards, SuitValueOf);
    assert Max(suits) in suits;
    Max(suits)
  }

  lemma SortedHandKeepsValueAndTopSuit(cards: seq<Card>)
    requires |cards| > 0 && AllSameValue(cards)
    ensures MakeHand(cards).cards[0].value == cards[0].value
    ensures TopSuit(MakeHand(cards).cards) == TopSuit(cards)
  {
    var s := MakeHand(cards).cards;
    SameValuePermutation(s, cards);
    assert s[0] in multiset(cards);
    MapPermutation(s, cards, SuitValueOf);
    MaxPermutation(Map(s, SuitValueOf), Map(cards, SuitValueOf));
  }

  /** Pairs compare by value, and pairs of equal value by their higher suit. */
  lemma PairsCompare(c: seq<Card>, d: seq<Card>)
    requires MakeHand(c).handType == Some(Pair) && MakeHand(d).handType == Some(Pair)
    ensures |c| == 2 && |d| == 2
    ensures CanBeat(MakeHand(c), Some(MakeHand(d))) <==>
      c[0].value > d[0].value || (c[0].value == d[0].value && TopSuit(c) > TopSuit(d))
  {
    PairRank(c);
    PairRank(d);
    PairRankOrder(c[0].value, TopSuit(c), d[0].value, TopSuit(d));
  }

  /** A pair is ranked by its value and then its higher suit, whatever order its cards came in. */
  lemma PairRank(c: seq<Card>)
    requires MakeHand(c).handType == Some(Pair)
    ensures |c| == 2 && |MakeHand(c).cards| == 2
    ensures MakeHand(c).rank == c[0].value * 100 + TopSuit(c)
  {
    ClassifyGroup(c, Pair);
    SortedHandKeepsValueAndTopSuit(c);
  }

  /** Ordering `value * 100 + suit` orders by value first, then by suit. */
  lemma PairRankOrder(v: int, s: int, v': int, s': int)
    requires 0 <= s <= 3 && 0 <= s' <= 3
    ensures v * 100 + s > v' * 100 + s' <==> v > v' || (v == v' && s > s')
  {
    if v > v' {
      assert v * 100 >= v' * 100 + 100;
    } else if v < v' {
      assert v' * 100 >= v * 100 + 100;
    }
  }

  /** Triples and quads compare by value alone. */
  lemma TriplesAndQuadsCompareByValue(c: seq<Card>, d: seq<Card>, t: HandType)
    requires t == Triple || t == Quad
    requires MakeHand(c).handType == Some(t) && MakeHand(d).handType == Some(t)
    ensures |c| == |d| == Size(t)
    ensures CanBeat(MakeHand(c), Some(MakeHand(d))) <==> c[0].value > d[0].value
  {
    ClassifyGroup(c, t);
    ClassifyGroup(d, t);
    SortedHandKeepsValueAndTopSuit(c);
    SortedHandKeepsValueAndTopSuit(d);
  }

  /** Straights compare by their highest value. */
  lemma StraightsCompareByTopValue(c: seq<Card>, d: seq<Card>)
    requires MakeHand(c).handType == Some(Straight) && MakeHand(d).handType == Some(Straight)
    ensures |c| == |d| == 5
    ensures CanBeat(MakeHand(c), Some(MakeHand(d))) <==> Max(Values(c)) > Max(Values(d))
  {
    MapPermutation(MakeHand(c).cards, c, ValueOf);
    MapPermutation(MakeHand(d).cards, d, ValueOf);
    MaxPermutation(Values(MakeHand(c).cards), Values(c));
    MaxPermutation(Values(MakeHand(d).cards), Values(d));
  }

  /** A straight of deck cards runs between 3..7 and 11..15: it never wraps past the "2". */
  lemma StraightOfDeckCardsDoesNotWrap(cards: seq<Card>)
    requires forall i :: 0 <= i < |cards| ==> ValidCard(cards[i])
    requires MakeHand(cards).handType == Some(Straight)
    ensures exists m :: 3 <= m <= 11 && multiset(Values(cards)) == multiset(RunFrom(m, 5))
  {
    ClassifyStraight(cards);
    var m :| multiset(Values(cards)) == multiset(RunFrom(m, 5));
    assert m in multiset(Values(cards)) && m + 4 in multiset(Values(cards)) by {
      assert RunFrom(m, 5)[0] == m && RunFrom(m, 5)[4] == m + 4;
    }
    var i :| 0 <= i < |cards| && Values(cards)[i] == m;
    var j :| 0 <= j < |cards| && Values(cards)[j] == m + 4;
    assert ValidCard(cards[i]) && ValidCard(cards[j]);
  }

  /** Two cards of one value, given in sorted order, make the pair ranked value * 100 + higher suit. */
  lemma SortedPairHand(a: Card, b: Card)
    requires a.value == b.value && SortValue(a) <= SortValue(b)
    ensures MakeHand([a, b]) ==
      Hand([a, b], Some(Pair), a.value * 100 + if SuitValue(a.suit) < SuitValue(b.suit) then SuitValue(b.suit) else SuitValue(a.suit))
  {
    assert SortBy([a, b], SortValue) == [a, b] by {
      assert Sorted([a, b], SortValue);
      SortBySortedIsIdentity([a, b], SortValue);
    }
    assert DetermineType([a, b]) == Some(Pair);
    assert Map([a, b], SuitValueOf) == [SuitValue(a.suit), SuitValue(b.suit)];
  }

  /** The pair 7 of Spades + 7 of Hearts beats the pair 7 of Clubs + 7 of Diamonds. */
  lemma PairOfSevensExample()
    ensures CanBeat(MakeHand([Card(Spades, 7), Card(Hearts, 7)]),
                    Some(MakeHand([Card(Clubs, 7), Card(Diamonds, 7)])))
  {
    PairHandRank(Card(Spades, 7), Card(Hearts, 7), 703);
    PairHandRank(Card(Clubs, 7), Card(Diamonds, 7), 702);
  }

  /** A concrete sorted pair and the rank its hand gets. */
  lemma PairHandRank(a: Card, b: Card, rank: int)
    requires a.value == b.value && SortValue(a) <= SortValue(b)
    requires rank == a.value * 100 + SuitValue(b.suit)
    ensures MakeHand([a, b]).handType == Some(Pair) && MakeHand([a, b]).rank == rank
    ensures |MakeHand([a, b]).cards| == 2
  {
    SortedPairHand(a, b);
  }
}
