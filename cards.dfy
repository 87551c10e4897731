/** Cards and the small wrapper types the hand needs.
    The card module itself is not part of this model: a card is a plain (suit, value) value,
    and its ordering is supplied to the hand as a comparator (see module Sorting). */
module Options {
  /** A value that may be absent, as JavaScript's `undefined` / `null` slots are. */
  datatype Option<T> = None | Some(value: T)
}

module Cards {
  datatype Suit = Clubs | Diamonds | Hearts | Spades

  /** Card values, `Card.ACE` being the highest. */
  datatype Rank = Two | Three | Four | Five | Six | Seven | Eight | Nine | Ten | Jack | Queen | King | Ace

  /** A card. Two cards are the same card exactly when suit and value agree. */
  datatype Card = Card(suit: Suit, value: Rank)
}
