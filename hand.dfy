/** The poker hand container of src/hand.js: a sequence of cards kept in the order of a
    card comparator, with lazily filled caches for its ranking objects. */
module Hands {
  import opened Options
  import opened Cards
  import opened Sorting
  import opened Ranking

  /** What a JavaScript property read yields here: `undefined` or a number. */
  datatype PropertyValue = Undefined | Number(n: int)

  /** The maximum hand size, declared as a static getter of the class. */
  const MaxHandSize: nat := 5

  /** The same name read on an instance: the getter is static, so an instance has no such
      property and the read is `undefined`. */
  const InstanceMaxHandSize: PropertyValue := Undefined

  /** How many leading input cards the constructor keeps. */
  const InitialLimit: nat := 5

  /** Strict equality of the hand size with the instance read of the maximum size. */
  predicate Full(size: nat) {
    InstanceMaxHandSize == Number(size)
  }

  /** The cards the constructor keeps: the first five of its input, or all of them if fewer. */
  function Prefix(input: seq<Card>): seq<Card> {
    input[..if |input| < InitialLimit then |input| else InitialLimit]
  }

  /** Some card of `cards` has this suit and this value. */
  predicate Holds(cards: seq<Card>, suit: Suit, value: Rank) {
    exists i :: 0 <= i < |cards| && cards[i].suit == suit && cards[i].value == value
  }

  /** No two cards with equal suit and value. */
  ghost predicate Distinct(cards: seq<Card>) {
    forall i, j :: 0 <= i < j < |cards| ==> !(cards[i].suit == cards[j].suit && cards[i].value == cards[j].value)
  }

  /** Lower-casing of the sort order, on ASCII letters. */
  function ToLower(order: string): (r: string)
    ensures |r| == |order|
    ensures forall i :: 0 <= i < |order| ==> r[i] == LowerChar(order[i])
  {
    if order == [] then [] else [LowerChar(order[0])] + ToLower(order[1..])
  }

  function LowerChar(ch: char): char {
    if 'A' <= ch <= 'Z' then (ch as int + 32) as char else ch
  }

  /** The lower-cased order is exactly "asc". */
  predicate IsAscending(order: string) {
    ToLower(order) == "asc"
  }

  /** The comparator the sort uses: the card comparator when the order is ascending,
      the card comparator with its arguments swapped otherwise. */
  function OrderComparator(order: string, cmp: Comparator): Comparator {
    if IsAscending(order) then cmp else Reversed(cmp)
  }

  /** The outcome of the insertion operations: the new cards and the boolean returned. */
  datatype Insertion = Insertion(cards: seq<Card>, added: bool)

  /** `addCard(card)` on a hand holding `cards`: refuse when full or when the card is held,
      otherwise push it and sort ascending. */
  function Put(cards: seq<Card>, card: Card, cmp: Comparator): Insertion {
    if Full(|cards|) || Holds(cards, card.suit, card.value) then Insertion(cards, false)
    else Insertion(SortBy(cards + [card], cmp), true)
  }

  /** `addCards(cs)`: `addCard` on every card in order, the report being the conjunction of
      the individual results; cards added before a failure stay. */
  function AddAll(cards: seq<Card>, cs: seq<Card>, cmp: Comparator): Insertion
    decreases |cs|
  {
    if cs == [] then Insertion(cards, true)
    else
      var before := AddAll(cards, cs[..|cs| - 1], cmp);
      var last := Put(before.cards, cs[|cs| - 1], cmp);
      Insertion(last.cards, before.added && last.added)
  }

  /** `addCards` over one more card is `addCard` after `addCards` over the cards before it. */
  lemma AddAllStep(cards: seq<Card>, cs: seq<Card>, i: nat, cmp: Comparator)
    requires i < |cs|
    ensures AddAll(cards, cs[..i + 1], cmp) ==
            var before := AddAll(cards, cs[..i], cmp);
            var last := Put(before.cards, cs[i], cmp);
            Insertion(last.cards, before.added && last.added)
  {
    assert cs[..i + 1][..i] == cs[..i];
  }

  /** The hand. `cmp` stands for `Card.compare`; `evaluate` and `evaluateDraw` stand for
      `new Combination(hand)` and `new DrawCombination(hand)`, applied to the cards held
      when the cache is first filled. */
  class Hand<D> {
    var cards: seq<Card>
    var combinationCache: Option<Combination>
    var drawCombinationCache: Option<D>
    const cmp: Comparator
    const evaluate: seq<Card> -> Combination
    const evaluateDraw: seq<Card> -> D

    ghost predicate Valid() {
      Consistent(cmp)
    }

    /** What the `combination` getter returns when read now. */
    ghost function CurrentCombination(): Combination
      reads this
    {
      match combinationCache
      case Some(c) => c
      case None => evaluate(cards)
    }

    /** `new Hand(cards)`: keep at most the first five cards, clear the caches, sort ascending. */
    constructor (input: seq<Card>, cmp: Comparator, evaluate: seq<Card> -> Combination, evaluateDraw: seq<Card> -> D)
      requires Consistent(cmp)
      ensures Valid()
      ensures this.cmp == cmp && this.evaluate == evaluate && this.evaluateDraw == evaluateDraw
      ensures cards == SortBy(Prefix(input), cmp)
      ensures Size() == if |input| < InitialLimit then |input| else InitialLimit
      ensures combinationCache == None && drawCombinationCache == None
    {
      this.cmp := cmp;
      this.evaluate := evaluate;
      this.evaluateDraw := evaluateDraw;
      cards := Prefix(input);
      combinationCache := None;
      drawCombinationCache := None;
      new;
      Sort();
    }

    /** The `combination` getter: computed on the first read, then returned as cached. */
    method GetCombination() returns (c: Combination)
      modifies this`combinationCache
      ensures old(combinationCache) == Some(c) || (old(combinationCache) == None && c == evaluate(cards))
      ensures c == old(CurrentCombination())
      ensures combinationCache == Some(c)
    {
      if combinationCache == None {
        combinationCache := Some(evaluate(cards));
      }
      c := combinationCache.value;
    }

    /** The `drawCombination` getter, cached in the same way. */
    method GetDrawCombination() returns (d: D)
      modifies this`drawCombinationCache
      ensures old(drawCombinationCache) == Some(d) || (old(drawCombinationCache) == None && d == evaluateDraw(cards))
      ensures drawCombinationCache == Some(d)
    {
      if drawCombinationCache == None {
        drawCombinationCache := Some(evaluateDraw(cards));
      }
      d := drawCombinationCache.value;
    }

    /** `addCards(cs)`. */
    method AddCards(cs: seq<Card>) returns (added: bool)
      requires Valid()
      modifies this`cards
      ensures Insertion(cards, added) == AddAll(old(cards), cs, cmp)
    {
      added := true;
      var i := 0;
      while i < |cs|
        invariant 0 <= i <= |cs|
        invariant Insertion(cards, added) == AddAll(old(cards), cs[..i], cmp)
      {
        AddAllStep(old(cards), cs, i, cmp);
        var ok := AddCard(cs[i]);
        added := added && ok;
        i := i + 1;
      }
      assert cs[..|cs|] == cs;
    }

    /** `addCard(card)`. */
    method AddCard(card: Card) returns (added: bool)
      requires Valid()
      modifies this`cards
      ensures Insertion(cards, added) == Put(old(cards), card, cmp)
      ensures added <==> card !in old(cards)
      ensures Size() == old(Size()) + (if added then 1 else 0)
    {
      if IsFull() || Has(card.suit, card.value) {
        return false;
      }
      cards := cards + [card];
      Sort();
      return true;
    }

    /** `size`. */
    function Size(): nat
      reads this
    {
      |cards|
    }

    /** `lastCard`: absent on an empty hand; on a sorted hand no card is after it. */
    function LastCard(): (r: Option<Card>)
      reads this
      ensures r.Some? <==> |cards| > 0
      ensures r.Some? ==> r.value == cards[|cards| - 1]
      ensures r.Some? && Consistent(cmp) && SortedBy(cards, cmp) ==>
                forall c :: c in cards ==> cmp(c, r.value) <= 0
    {
      if |cards| == 0 then None
      else
        LastGreatest();
        Some(cards[|cards| - 1])
    }

    /** `firstCard`: absent on an empty hand; on a sorted hand it is not after any card. */
    function FirstCard(): (r: Option<Card>)
      reads this
      ensures r.Some? <==> |cards| > 0
      ensures r.Some? ==> r.value == cards[0]
      ensures r.Some? && Consistent(cmp) && SortedBy(cards, cmp) ==>
                forall c :: c in cards ==> cmp(r.value, c) <= 0
    {
      if |cards| == 0 then None
      else
        FirstLeast();
        Some(cards[0])
    }

    lemma FirstLeast()
      requires |cards| > 0
      ensures Consistent(cmp) && SortedBy(cards, cmp) ==> forall c :: c in cards ==> cmp(cards[0], c) <= 0
    {
      if Consistent(cmp) && SortedBy(cards, cmp) { FirstIsLeast(cards, cmp); }
    }

    lemma LastGreatest()
      requires |cards| > 0
      ensures Consistent(cmp) && SortedBy(cards, cmp) ==> forall c :: c in cards ==> cmp(c, cards[|cards| - 1]) <= 0
    {
      if Consistent(cmp) && SortedBy(cards, cmp) { LastIsGreatest(cards, cmp); }
    }

    /** `isFull()`: never true, since the instance read of the maximum size is undefined. */
    function IsFull(): (r: bool)
      reads this
      ensures !r
    {
      Full(|cards|)
    }

    /** `has(suit, value)`: some held card has this suit and this value. */
    function Has(suit: Suit, value: Rank): (r: bool)
      reads this
      ensures r <==> Card(suit, value) in cards
    {
      assert Card(suit, value) in cards ==> exists i :: 0 <= i < |cards| && cards[i] == Card(suit, value);
      Holds(cards, suit, value)
    }

    /** `compare(hand)`: both combinations are read through their getters and compared by
        `combinationCompare`, which stands for `Combination.compare`. */
    method Compare(other: Hand<D>, combinationCompare: (Combination, Combination) -> int) returns (r: int)
      modifies this`combinationCache, other`combinationCache
      ensures r == combinationCompare(old(CurrentCombination()), old(other.CurrentCombination()))
      ensures combinationCache == Some(old(CurrentCombination()))
      ensures other.combinationCache == Some(old(other.CurrentCombination()))
    {
      var mine := GetCombination();
      var theirs := other.GetCombination();
      r := combinationCompare(mine, theirs);
    }

    /** `sort(order)`, `order` defaulting to `'asc'`. */
    method Sort(order: string := "asc")
      requires Valid()
      modifies this`cards
      ensures cards == SortBy(old(cards), OrderComparator(order, cmp))
      ensures multiset(cards) == multiset(old(cards))
      ensures IsAscending(order) ==> SortedBy(cards, cmp)
      ensures !IsAscending(order) ==> forall i, j :: 0 <= i < j < |cards| ==> cmp(cards[j], cards[i]) <= 0
    {
      var comparator := OrderComparator(order, cmp);
      ReversedConsistent(cmp);
      SortBySorted(cards, comparator);
      cards := SortBy(cards, comparator);
    }

    method IsKicker() returns (b: bool)
      modifies this`combinationCache
      ensures b <==> old(CurrentCombination()).category == Kicker
      ensures combinationCache == Some(old(CurrentCombination()))
    {
      var c := GetCombination();
      b := c.category == Kicker;
    }

    method IsPair() returns (b: bool)
      modifies this`combinationCache
      ensures b <==> old(CurrentCombination()).category == Pair
      ensures combinationCache == Some(old(CurrentCombination()))
    {
      var c := GetCombination();
      b := c.category == Pair;
    }

    method IsTwoPairs() returns (b: bool)
      modifies this`combinationCache
      ensures b <==> old(CurrentCombination()).category == TwoPairs
      ensures combinationCache == Some(old(CurrentCombination()))
    {
      var c := GetCombination();
      b := c.category == TwoPairs;
    }

    method IsThreeOfKind() returns (b: bool)
      modifies this`combinationCache
      ensures b <==> old(CurrentCombination()).category == ThreeOfKind
      ensures combinationCache == Some(old(CurrentCombination()))
    {
      var c := GetCombination();
      b := c.category == ThreeOfKind;
    }

    method IsStraight() returns (b: bool)
      modifies this`combinationCache
      ensures b <==> old(CurrentCombination()).category == Straight
      ensures combinationCache == Some(old(CurrentCombination()))
    {
      var c := GetCombination();
      b := c.category == Straight;
    }

    method IsFlush() returns (b: bool)
      modifies this`combinationCache
      ensures b <==> old(CurrentCombination()).category == Flush
      ensures combinationCache == Some(old(CurrentCombination()))
    {
      var c := GetCombination();
      b := c.category == Flush;
    }

    method IsFullHouse() returns (b: bool)
      modifies this`combinationCache
      ensures b <==> old(CurrentCombination()).category == FullHouse
      ensures combinationCache == Some(old(CurrentCombination()))
    {
      var c := GetCombination();
      b := c.category == FullHouse;
    }

    method IsFourOfKind() returns (b: bool)
      modifies this`combinationCache
      ensures b <==> old(CurrentCombination()).category == FourOfKind
      ensures combinationCache == Some(old(CurrentCombination()))
    {
      var c := GetCombination();
      b := c.category == FourOfKind;
    }

    method IsStraightFlush() returns (b: bool)
      modifies this`combinationCache
      ensures b <==> old(CurrentCombination()).category == StraightFlush
      ensures combinationCache == Some(old(CurrentCombination()))
    {
      var c := GetCombination();
      b := c.category == StraightFlush;
    }

    /** `isRoyalFlush()`: a straight flush whose combination's highest card is the ace. */
    method IsRoyalFlush() returns (b: bool)
      modifies this`combinationCache
      ensures b <==> IsRoyal(old(CurrentCombination()))
      ensures b ==> old(CurrentCombination()).category == StraightFlush
      ensures combinationCache == Some(old(CurrentCombination()))
    {
      b := IsStraightFlush();
      if b {
        var c := GetCombination();
        b := c.highestCard == Ace;
      }
    }
  }
}
