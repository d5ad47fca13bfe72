/**
  Setup: the 52-card deck `create_deck` builds, the shuffle (an order chosen
  by the caller in place of `random.shuffle`) and the round-robin deal that
  gives deck position i to seat i mod 4.
 */
module Deal {
  import opened Sequences
  import opened Cards

  /** Position i of the fresh deck: suits in declaration order, values 3..15 within each suit. */
  function DeckCard(i: int): Card
  {
    Card(SuitOf((i / 13) % 4), 3 + i % 13)
  }

  /** The deck as `create_deck` returns it. */
  function FullDeck(): (d: seq<Card>)
    ensures |d| == 52
  {
    Map(Iota(52), DeckCard)
  }

  /** Position 13 s + v - 3 of the deck is the card of suit s and value v. */
  lemma DeckCardAt(s: int, v: int)
    requires 0 <= s < 4 && 3 <= v < 16
    ensures 13 * s + v - 3 < 52 && FullDeck()[13 * s + v - 3] == Card(SuitOf(s), v)
  {
    var k := 13 * s + v - 3;
    assert k / 13 == s && k % 13 == v - 3;
    assert Iota(52)[k] == k;
  }

  /** The deck holds every card of the game exactly once, and nothing else. */
  lemma FullDeckIsEveryCardOnce()
    ensures NoDup(FullDeck())
    ensures forall c :: c in FullDeck() <==> ValidCard(c)
  {
    var d := FullDeck();
    forall i, j | 0 <= i < j < 52 ensures d[i] != d[j] {
      assert d[i] == DeckCard(i) && d[j] == DeckCard(j);
    }
    NoDupIffDistinct(d);
    forall c ensures c in d <==> ValidCard(c) {
      if ValidCard(c) {
        DeckCardAt(SuitValue(c.suit), c.value);
        assert SuitOf(SuitValue(c.suit)) == c.suit;
      }
    }
  }

  /** `order` is an arrangement of the positions 0..51. */
  ghost predicate IsShuffleOrder(order: seq<int>) {
    |order| == 52 && multiset(order) == multiset(Iota(52))
  }

  lemma ShuffleOrderInRange(order: seq<int>)
    requires IsShuffleOrder(order)
    ensures forall i :: 0 <= i < |order| ==> 0 <= order[i] < 52
  {
    forall i | 0 <= i < |order| ensures 0 <= order[i] < 52 {
      assert order[i] in multiset(Iota(52));
      var j :| 0 <= j < 52 && Iota(52)[j] == order[i];
    }
  }

  /** Reordering the deck by a shuffle order keeps exactly the deck's cards. */
  lemma ShuffledDeckIsDeck(order: seq<int>)
    requires IsShuffleOrder(order)
    ensures multiset(Map(order, DeckCard)) == multiset(FullDeck())
  {
    MapPermutation(order, Iota(52), DeckCard);
  }

  /** The cards of deck d that the round-robin deal gives to seat p: positions i with i % 4 == p, in deck order. */
  function DealtTo(d: seq<Card>, p: nat): seq<Card>
  {
    if |d| == 0 then []
    else DealtTo(d[..|d| - 1], p) + if (|d| - 1) % 4 == p then [d[|d| - 1]] else []
  }

  /** Seat p < 4 receives every fourth card: (|d| + 3 - p) / 4 of them. */
  lemma {:induction false} DealtToCount(d: seq<Card>, p: nat)
    requires p < 4
    ensures |DealtTo(d, p)| == (|d| + 3 - p) / 4
  {
    if |d| > 0 {
      DealtToCount(d[..|d| - 1], p);
    }
  }

  lemma DealtToStep(d: seq<Card>, p: nat)
    requires |d| > 0
    ensures multiset(DealtTo(d, p)) ==
      multiset(DealtTo(d[..|d| - 1], p)) + if (|d| - 1) % 4 == p then multiset{d[|d| - 1]} else multiset{}
  {
  }

  /** The four seats together receive exactly the cards of the deck. */
  lemma {:induction false} DealtToPartition(d: seq<Card>)
    ensures multiset(DealtTo(d, 0)) + multiset(DealtTo(d, 1)) + multiset(DealtTo(d, 2)) + multiset(DealtTo(d, 3))
         == multiset(d)
  {
    if |d| > 0 {
      var init, last := d[..|d| - 1], d[|d| - 1];
      DealtToPartition(init);
      assert multiset(d) == multiset(init) + multiset{last} by {
        assert d == init + [last];
      }
      DealtToStep(d, 0);
      DealtToStep(d, 1);
      DealtToStep(d, 2);
      DealtToStep(d, 3);
      AddOneToOneSeat(multiset(DealtTo(init, 0)), multiset(DealtTo(init, 1)),
                      multiset(DealtTo(init, 2)), multiset(DealtTo(init, 3)),
                      multiset(DealtTo(d, 0)), multiset(DealtTo(d, 1)),
                      multiset(DealtTo(d, 2)), multiset(DealtTo(d, 3)), last, (|d| - 1) % 4);
    }
  }

  lemma AddOneToOneSeat(m0: multiset<Card>, m1: multiset<Card>, m2: multiset<Card>, m3: multiset<Card>,
                        n0: multiset<Card>, n1: multiset<Card>, n2: multiset<Card>, n3: multiset<Card>,
                        x: Card, q: int)
    requires 0 <= q < 4
    requires n0 == m0 + if q == 0 then multiset{x} else multiset{}
    requires n1 == m1 + if q == 1 then multiset{x} else multiset{}
    requires n2 == m2 + if q == 2 then multiset{x} else multiset{}
    requires n3 == m3 + if q == 3 then multiset{x} else multiset{}
    ensures n0 + n1 + n2 + n3 == m0 + m1 + m2 + m3 + multiset{x}
  {
  }

  /** The four hands, one after the other. */
  function Concat4(h0: seq<Card>, h1: seq<Card>, h2: seq<Card>, h3: seq<Card>): seq<Card>
  {
    h0 + h1 + h2 + h3
  }

  /**
    Dealing a shuffled deck into four hands gives each seat 13 cards, every
    card of the game lands in exactly one hand, and so exactly one seat
    holds the 3 of Spades. The hands may be in any order (they are sorted
    as they are dealt).
   */
  lemma DealPartitionsDeck(order: seq<int>, h0: seq<Card>, h1: seq<Card>, h2: seq<Card>, h3: seq<Card>)
    requires IsShuffleOrder(order)
    requires multiset(h0) == multiset(DealtTo(Map(order, DeckCard), 0))
    requires multiset(h1) == multiset(DealtTo(Map(order, DeckCard), 1))
    requires multiset(h2) == multiset(DealtTo(Map(order, DeckCard), 2))
    requires multiset(h3) == multiset(DealtTo(Map(order, DeckCard), 3))
    ensures |h0| == 13 && |h1| == 13 && |h2| == 13 && |h3| == 13
    ensures NoDup(Concat4(h0, h1, h2, h3))
    ensures forall c :: c in Concat4(h0, h1, h2, h3) <==> ValidCard(c)
    ensures (if ThreeOfSpades in h0 then 1 else 0) + (if ThreeOfSpades in h1 then 1 else 0)
          + (if ThreeOfSpades in h2 then 1 else 0) + (if ThreeOfSpades in h3 then 1 else 0) == 1
  {
    var d := Map(order, DeckCard);
    assert |d| == 52;
    assert |h0| == 13 && |h1| == 13 && |h2| == 13 && |h3| == 13 by {
      DealtToCount(d, 0);
      DealtToCount(d, 1);
      DealtToCount(d, 2);
      DealtToCount(d, 3);
      assert |h0| == |multiset(h0)| && |h1| == |multiset(h1)| && |h2| == |multiset(h2)| && |h3| == |multiset(h3)|;
    }
    assert multiset(Concat4(h0, h1, h2, h3)) == multiset(FullDeck()) by {
      DealtToPartition(d);
      assert multiset(Concat4(h0, h1, h2, h3)) == multiset(h0) + multiset(h1) + multiset(h2) + multiset(h3);
      ShuffledDeckIsDeck(order);
    }
    HoldingTheDeck(h0, h1, h2, h3);
  }

  /** Four hands that together hold exactly the deck share no card and give the 3 of Spades to one seat. */
  lemma HoldingTheDeck(h0: seq<Card>, h1: seq<Card>, h2: seq<Card>, h3: seq<Card>)
    requires multiset(Concat4(h0, h1, h2, h3)) == multiset(FullDeck())
    ensures NoDup(Concat4(h0, h1, h2, h3))
    ensures forall c :: c in Concat4(h0, h1, h2, h3) <==> ValidCard(c)
    ensures (if ThreeOfSpades in h0 then 1 else 0) + (if ThreeOfSpades in h1 then 1 else 0)
          + (if ThreeOfSpades in h2 then 1 else 0) + (if ThreeOfSpades in h3 then 1 else 0) == 1
  {
    var all := Concat4(h0, h1, h2, h3);
    FullDeckIsEveryCardOnce();
    forall c ensures c in all <==> ValidCard(c) {
      assert c in all <==> c in multiset(FullDeck());
    }
    HeldByOneSeat(h0, h1, h2, h3, ThreeOfSpades);
    assert ThreeOfSpades in all;
    assert multiset(all) == multiset(h0) + multiset(h1) + multiset(h2) + multiset(h3);
  }

  /** In four hands without a repeated card, a card is held by at most one of them. */
  lemma HeldByOneSeat(h0: seq<Card>, h1: seq<Card>, h2: seq<Card>, h3: seq<Card>, x: Card)
    requires NoDup(Concat4(h0, h1, h2, h3))
    ensures (if x in h0 then 1 else 0) + (if x in h1 then 1 else 0)
          + (if x in h2 then 1 else 0) + (if x in h3 then 1 else 0) <= 1
  {
    assert multiset(Concat4(h0, h1, h2, h3)) == multiset(h0) + multiset(h1) + multiset(h2) + multiset(h3);
    assert multiset(Concat4(h0, h1, h2, h3))[x] <= 1;
  }

  /** Taking cards out of hands never makes two of them share a card. */
  lemma SmallerHandsKeepNoDup(h0: seq<Card>, h1: seq<Card>, h2: seq<Card>, h3: seq<Card>,
                              g0: seq<Card>, g1: seq<Card>, g2: seq<Card>, g3: seq<Card>)
    requires NoDup(Concat4(h0, h1, h2, h3))
    requires multiset(g0) <= multiset(h0) && multiset(g1) <= multiset(h1)
    requires multiset(g2) <= multiset(h2) && multiset(g3) <= multiset(h3)
    ensures NoDup(Concat4(g0, g1, g2, g3))
  {
    assert multiset(Concat4(h0, h1, h2, h3)) == multiset(h0) + multiset(h1) + multiset(h2) + multiset(h3);
    assert multiset(Concat4(g0, g1, g2, g3)) == multiset(g0) + multiset(g1) + multiset(g2) + multiset(g3);
    forall x ensures multiset(Concat4(g0, g1, g2, g3))[x] <= 1 {
      assert multiset(Concat4(h0, h1, h2, h3))[x] <= 1;
    }
  }
}
