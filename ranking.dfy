/** The ranking collaborator seen from the hand: a combination has a category and
    a highest card; how it is computed from the cards is not part of this model. */
module Ranking {
  import opened Cards

  /** The category constants `Combination.KICKER` ... `Combination.STRAIGHT_FLUSH`. */
  datatype Category =
    | Kicker | Pair | TwoPairs | ThreeOfKind | Straight
    | Flush | FullHouse | FourOfKind | StraightFlush

  datatype Combination = Combination(category: Category, highestCard: Rank)

  /** A royal flush: a straight flush whose highest card is an ace. */
  predicate IsRoyal(c: Combination) {
    c.category == StraightFlush && c.highestCard == Ace
  }

  /** The answers of the nine category checks, in the order
      kicker, pair, two pairs, three of a kind, straight, flush, full house,
      four of a kind, straight flush. */
  function CategoryChecks(c: Combination): seq<bool> {
    [ c.category == Kicker, c.category == Pair, c.category == TwoPairs,
      c.category == ThreeOfKind, c.category == Straight, c.category == Flush,
      c.category == FullHouse, c.category == FourOfKind, c.category == StraightFlush ]
  }

  /** Exactly one of the nine category checks holds of any combination. */
  lemma ExactlyOneCategory(c: Combination)
    ensures exists i :: 0 <= i < |CategoryChecks(c)| && CategoryChecks(c)[i]
    ensures forall i, j ::
              && 0 <= i < |CategoryChecks(c)| && 0 <= j < |CategoryChecks(c)|
              && CategoryChecks(c)[i] && CategoryChecks(c)[j]
              ==> i == j
  {
    var checks := CategoryChecks(c);
    match c.category
    case Kicker => assert checks[0];
    case Pair => assert checks[1];
    case TwoPairs => assert checks[2];
    case ThreeOfKind => assert checks[3];
    case Straight => assert checks[4];
    case Flush => assert checks[5];
    case FullHouse => assert checks[6];
    case FourOfKind => assert checks[7];
    case StraightFlush => assert checks[8];
  }

  /** A royal flush is a straight flush, and a straight flush topped below the ace is not royal. */
  lemma RoyalRefinesStraightFlush(c: Combination)
    ensures IsRoyal(c) ==> c.category == StraightFlush
    ensures c.category == StraightFlush ==> (IsRoyal(c) <==> c.highestCard == Ace)
  {
  }
}
