# Poker hand container (tx-holdem `Hand`)

A Dafny model of the `Hand` class of `src/hand.js`: a mutable sequence of playing cards
that is kept sorted by the card comparator after construction and after every successful
insertion, with membership by suit and value, an in-place ascending or descending sort,
boundary accessors, and two lazily filled ranking caches (`combination`,
`drawCombination`) that are never invalidated.

Files:

- `cards.dfy` — `Options.Option`; `Cards.Card` as a (suit, value) value with enumerated
  suits and values, `Ace` being the highest value.
- `sorting.dfy` — module `Sorting`: the comparator the hand sorts with, what makes it
  consistent, and the stable sort `SortBy` that stands for `Array.prototype.sort`, with
  the proofs that it is a sorted permutation and that a tie-free sorted arrangement is unique.
- `ranking.dfy` — module `Ranking`: the abstract combination (a category and a highest
  card) and the category checks.
- `hand.dfy` — module `Hands`: the operations on sequences that the class methods are
  specified by (`Prefix`, `Holds`, `Put`, `AddAll`, `OrderComparator`) and the class
  `Hand` itself, whose fields are `cards`, the two caches, and the collaborators.
- `hand_properties.dfy` — module `HandProperties`: lemmas about construction, `addCard`,
  `addCards`, `sort`, the caches, and the three scenarios of `test/hand.js`.

How the collaborators are represented:

- `Card.compare` is not part of this model. The hand holds it as a comparator value
  `cmp: (Card, Card) -> int`, assumed only to be `Consistent`: `cmp(a, b) < 0` exactly when
  `cmp(b, a) > 0`, and "not after" (`<= 0`) is transitive. Everything proved holds for every
  such comparator.
- `new Combination(hand)` and `new DrawCombination(hand)` are functions `evaluate` and
  `evaluateDraw` of the cards held at the moment the cache is filled; a draw combination is
  an opaque type parameter `D`. `Combination.compare` is the parameter of `Hand.Compare`.
- `Array.prototype.sort` is modelled by `Sorting.SortBy`, a stable insertion sort. The
  engine's sort is stable as well, so for a consistent comparator both give the same order.

Behaviour of the code that its names and comments do not suggest, which the model follows:

- There is no capacity check on insertion. The comment on `isFull()` says it is true once
  the hand has reached maximum capacity, and `addCard` refuses when it is. But `isFull()` compares the size with
  `this.MAX_HAND_SIZE`, but `MAX_HAND_SIZE` is a static getter, so the instance read is
  `undefined` and `isFull()` is always false (`Hands.InstanceMaxHandSize`). `addCard`
  refuses only cards already held; a hand of five accepts a sixth card
  (`HandProperties.AddCardIgnoresCapacity`). Only the constructor's `splice(0, 5)` bounds
  the size.
- The constructor does not check for duplicates (`HandProperties.ConstructionKeepsDuplicates`),
  so duplicate-freedom is preserved by insertion but not established by construction.
- `addCards` attempts every card even after a failure and never rolls back: its report is
  all-or-nothing, its effect is not.
- After `sort('desc')` the cards are in descending order, so "sorted ascending" is not an
  invariant of the class; it holds after construction and after every successful insertion.

## Model

| member | source | states |
|---|---|---|
| `Hands.Hand.constructor` | src/hand.js:13-21 | the hand holds the first at most five input cards sorted ascending, its `Size()` is min(n, 5), and both caches are empty |
| `HandProperties.Construction` | src/hand.js:13-21 | the stored cards number min(n, 5), are a permutation of the first min(n, 5) inputs and are sorted ascending; no input gives an empty hand |
| `HandProperties.ConstructionKeepsDuplicates` | src/hand.js:16 | two copies of the same card given to the constructor are both kept, so the hand is not duplicate-free |
| `Hands.Hand.GetCombination` | src/hand.js:28-34 | the first read computes the combination from the current cards and caches it; later reads return the cached value |
| `Hands.Hand.GetDrawCombination` | src/hand.js:41-47 | the same lazy, never-refreshed cache for the draw combination |
| `HandProperties.StaleCombination` | src/hand.js:28-34 | a combination read, then `addCard` and `sort('desc')`, then a second read: both reads give the value computed before the changes; when the card was not held the cards gained it, otherwise they are a permutation of the old ones |
| `HandProperties.StaleDrawCombination` | src/hand.js:41-47 | the same staleness for the draw combination |
| `Hands.Hand.AddCards` | src/hand.js:54-61 | the loop leaves the cards and the report that attempting every card in order gives, the report being the conjunction of the individual results |
| `HandProperties.AddCardsReport` | src/hand.js:54-61 | `addCards` reports true exactly when the offered cards are pairwise distinct and none was held before |
| `HandProperties.AddCardsMembers` | src/hand.js:54-61 | afterwards the hand holds exactly the cards held before together with every offered card: nothing added before a failure is rolled back |
| `HandProperties.AddCardsCount` | src/hand.js:54-61 | on any hand, duplicates included, the size grows by the number of distinct offered cards that were not held |
| `HandProperties.AddCardsSize` | src/hand.js:54-61 | on a duplicate-free hand the result is duplicate-free and its size is the number of distinct cards among those held and offered |
| `HandProperties.AddCardsSorted` | src/hand.js:54-61 | afterwards the hand is sorted ascending if it was before or if some card was added |
| `HandProperties.AddCardsGrows` | src/hand.js:54-61 | `addCards` never makes the hand smaller |
| `HandProperties.AddCardsArrangeStrictly` | src/hand.js:54-76 | distinct cards offered to an empty hand end up in the unique arrangement the comparator orders strictly, whatever the order offered |
| `Hands.Hand.AddCard` | src/hand.js:68-77 | the new cards and the result are those of refusing a full hand or a held card and otherwise pushing and sorting ascending; the result is true exactly when the card was not held, and `Size()` grows by one exactly when it is true |
| `HandProperties.AddCardOutcome` | src/hand.js:68-77 | a held card is refused and nothing changes; any other card is accepted, the size grows by one, the multiset gains exactly that card and the cards end sorted ascending |
| `HandProperties.AddCardMembers` | src/hand.js:68-77 | after `addCard` the hand holds the cards held before and the card offered, and no others |
| `HandProperties.AddCardKeepsDistinct` | src/hand.js:68-77 | a hand with no two cards of equal suit and value keeps that property through `addCard` |
| `HandProperties.AddCardTwice` | src/hand.js:68-77 | adding a new card twice succeeds once then fails, and the size grows by one in all |
| `HandProperties.AddCardIgnoresCapacity` | src/hand.js:95-97 | a hand of five cards accepts a sixth distinct card and then holds six: `isFull` never refuses |
| `Hands.Hand.LastCard` | src/hand.js:83-85 | absent exactly on an empty hand, otherwise the last card; on a sorted hand no card is after it |
| `Hands.Hand.FirstCard` | src/hand.js:87-89 | absent exactly on an empty hand, otherwise the first card; on a sorted hand it is not after any card |
| `Hands.Hand.IsFull` | src/hand.js:95-97 | never true, because the instance read of the static `MAX_HAND_SIZE` is `undefined` |
| `Hands.Hand.Has` | src/hand.js:109-120 | true exactly when a card of this suit and value is held |
| `Hands.Hand.Compare` | src/hand.js:127-129 | the result of the combination comparison applied to both hands' combinations as their getters return them; both caches are filled |
| `Hands.Hand.IsKicker` | src/hand.js:135-137 | true exactly when the combination's category is kicker; fills the cache |
| `Hands.Hand.IsPair` | src/hand.js:143-145 | true exactly when the category is pair; fills the cache |
| `Hands.Hand.IsTwoPairs` | src/hand.js:151-153 | true exactly when the category is two pairs; fills the cache |
| `Hands.Hand.IsThreeOfKind` | src/hand.js:159-161 | true exactly when the category is three of a kind; fills the cache |
| `Hands.Hand.IsStraight` | src/hand.js:167-169 | true exactly when the category is straight; fills the cache |
| `Hands.Hand.IsFlush` | src/hand.js:175-177 | true exactly when the category is flush; fills the cache |
| `Hands.Hand.IsFullHouse` | src/hand.js:183-185 | true exactly when the category is full house; fills the cache |
| `Hands.Hand.IsFourOfKind` | src/hand.js:191-193 | true exactly when the category is four of a kind; fills the cache |
| `Hands.Hand.IsRoyalFlush` | src/hand.js:199-201 | true exactly when the category is straight flush and the highest card is the ace; implies the straight-flush check |
| `Hands.Hand.IsStraightFlush` | src/hand.js:207-209 | true exactly when the category is straight flush; fills the cache |
| `HandProperties.CategoryChecksOfHand` | src/hand.js:135-209 | calling the nine category checks of a hand in turn gives the answers for its first-read combination, exactly one of them true |
| `Ranking.ExactlyOneCategory` | src/hand.js:135-209 | exactly one of the nine category checks holds of any combination |
| `Ranking.RoyalRefinesStraightFlush` | src/hand.js:199-209 | a royal flush is a straight flush, and a straight flush is royal exactly when topped by the ace |
| `Hands.Hand.Sort` | src/hand.js:226-229 | the cards become a permutation of themselves, sorted ascending when the lower-cased order is "asc" and descending otherwise |
| `HandProperties.AscendingIgnoresCase` | src/hand.js:226-228 | the order counts as ascending exactly when it is three letters spelling "asc" in any mix of cases |
| `Sorting.ReversedConsistent` | src/hand.js:228 | the swapped-argument comparator used for descending order is consistent when the card comparator is |
| `Sorting.Insert` | src/hand.js:228 | inserting a card adds exactly that card to the multiset |
| `Sorting.InsertSorted` | src/hand.js:228 | inserting into a sorted sequence leaves it sorted |
| `Sorting.SortBy` | src/hand.js:228 | the sort is a permutation of its input |
| `Sorting.SortBySorted` | src/hand.js:228 | the sort's result is sorted by the comparator it is given |
| `Sorting.SortedUnique` | src/hand.js:228 | two sorted permutations of the same tie-free cards are equal |
| `Sorting.FirstIsLeast` | src/hand.js:87-89 | the first card of a sorted sequence is not after any of its cards |
| `Sorting.LastIsGreatest` | src/hand.js:83-85 | no card of a sorted sequence is after its last card |
| `HandProperties.AddsSequenceOfCards` | test/hand.js:6-19 | an empty hand accepts clubs eight down to four: the report is true and five cards are held |
| `HandProperties.DoesNotAddRepeatedCards` | test/hand.js:21-34 | offering clubs 8, 8, 6, 6, 4 reports false and leaves three cards |
| `HandProperties.SortsAscendingByDefault` | test/hand.js:36-49 | offering clubs eight down to four stores them four up to eight, for any comparator ordering them by value |

## Left out

- `reduce`, `every` and `forEach` (src/hand.js:216-245): pass-throughs to the array methods with callbacks, with nothing specific to the hand.
- The run-time sniffing of argument shapes in the constructor, `addCards` and `has`: each has one typed entry point (a sequence of cards, or a suit and a value).
- The constructor's `splice` removes the kept cards from the caller's array; the model takes the input as an immutable sequence and does not show that side effect on the caller.
- The internals of `Card`, `Combination` and `DrawCombination` (src/card.js, src/combination.js and src/draw-combination.js are not part of this model): the card order is any consistent comparator, a combination is built by an arbitrary function of the cards, and `Combination.compare` is a parameter, so properties of `Hand.compare` such as antisymmetry are not stated.
- The loose `==` between a combination object and a category constant, which goes through the collaborator's `valueOf`; each check is equality of the abstract category.
- `new Combination(this)` receives the hand object itself; the model gives it the cards held at the moment of the first read. Any later reads the collaborator might make of the hand are not modelled.
- `toLowerCase` is modelled on ASCII letters only; other characters are left as they are.
- `sort(order)` with an order that is not a string (`null`, a number) throws a `TypeError` at `order.toLowerCase()` (src/hand.js:227); the model's order is always a string, so that exception is not modelled.
- `Hands.Hand.Size` has no contract of its own: it is the number of cards held, and what the source promises about it is stated on the constructor and on `AddCard`.
- The behaviour of the engine's sort with an inconsistent comparator: every operation that sorts requires a consistent one.
