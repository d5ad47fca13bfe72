/**
  The card model of Tien Len: four suits, face values 3..15 (11 = J, 12 = Q,
  13 = K, 14 = A, 15 = the "2", the highest value), and the total order that
  ranks the 3 of Spades lowest and every other card by value, then by suit.
 */
module Cards {

  datatype Suit = Spades | Clubs | Diamonds | Hearts

  /** The enumeration value of a suit: Spades 0, Clubs 1, Diamonds 2, Hearts 3. */
  function SuitValue(s: Suit): (v: int)
    ensures 0 <= v <= 3
  {
    match s
    case Spades => 0
    case Clubs => 1
    case Diamonds => 2
    case Hearts => 3
  }

  /** The suit with a given enumeration value, in declaration order. */
  function SuitOf(v: int): (s: Suit)
    requires 0 <= v <= 3
    ensures SuitValue(s) == v
  {
    if v == 0 then Spades else if v == 1 then Clubs else if v == 2 then Diamonds else Hearts
  }

  /** A card compares equal to another exactly when suit and value agree. */
  datatype Card = Card(suit: Suit, value: int)

  const ThreeOfSpades := Card(Spades, 3)

  /** A card that a deck can hold: a value between 3 and 15. */
  predicate ValidCard(c: Card) {
    3 <= c.value <= 15
  }

  /**
    The key by which cards are sorted and compared: 0 for the 3 of Spades,
    value * 10 + suit for every other card (the source computes the other
    value-3 cards in a branch of their own, with the same formula).
   */
  function SortValue(c: Card): int {
    if c.value == 3 && c.suit == Spades then 0
    else c.value * 10 + SuitValue(c.suit)
  }

  /** `a < b` on cards. */
  predicate Less(a: Card, b: Card) {
    SortValue(a) < SortValue(b)
  }

  /** The 3 of Spades is below every other card of the deck. */
  lemma ThreeOfSpadesIsLeast(c: Card)
    requires ValidCard(c) && c != ThreeOfSpades
    ensures Less(ThreeOfSpades, c)
    ensures !Less(c, ThreeOfSpades)
  {
  }

  /** Distinct cards of the deck never share a sort key, so `<` is a strict total order on them. */
  lemma SortValueInjective(a: Card, b: Card)
    requires ValidCard(a) && ValidCard(b)
    requires SortValue(a) == SortValue(b)
    ensures a == b
  {
  }

  /** On deck cards, `<` compares values first and suits second. */
  lemma LessByValueThenSuit(a: Card, b: Card)
    requires ValidCard(a) && ValidCard(b)
    ensures Less(a, b) <==>
      a.value < b.value || (a.value == b.value && SuitValue(a.suit) < SuitValue(b.suit))
  {
  }

  /** `<` is irreflexive and transitive, and any two distinct deck cards are comparable. */
  lemma LessIsStrictTotalOrder(a: Card, b: Card, c: Card)
    requires ValidCard(a) && ValidCard(b)
    ensures !Less(a, a)
    ensures Less(a, b) && Less(b, c) ==> Less(a, c)
    ensures a != b ==> Less(a, b) || Less(b, a)
  {
    if a != b && SortValue(a) == SortValue(b) {
      SortValueInjective(a, b);
    }
  }
}
