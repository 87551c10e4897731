/** Properties of the hand model: construction, insertion, membership, ordering and the
    caches, including the scenarios of test/hand.js. */
module HandProperties {
  import opened Options
  import opened Cards
  import opened Sorting
  import opened Ranking
  import opened Hands

  /** The set of cards held. */
  ghost function Elements(s: seq<Card>): set<Card> {
    set x | x in s
  }

  // ----- distinctness -----------------------------------------------------------------

  lemma DistinctSnoc(s: seq<Card>, y: Card)
    ensures Distinct(s + [y]) <==> Distinct(s) && y !in s
  {
    var t := s + [y];
    if Distinct(t) {
      forall i, j | 0 <= i < j < |s| ensures !(s[i].suit == s[j].suit && s[i].value == s[j].value) {
        assert s[i] == t[i] && s[j] == t[j];
      }
      forall k | 0 <= k < |s| ensures s[k] != y {
        assert t[k] == s[k] && t[|s|] == y;
      }
    }
    if Distinct(s) && y !in s {
      forall i, j | 0 <= i < j < |t| ensures !(t[i].suit == t[j].suit && t[i].value == t[j].value) {
        if j == |s| { assert t[i] == s[i]; } else { assert t[i] == s[i] && t[j] == s[j]; }
      }
    }
  }

  /** Distinctness is a property of the multiset of cards: every card occurs at most once. */
  lemma {:induction false} DistinctIffSingles(s: seq<Card>)
    ensures Distinct(s) <==> forall x :: multiset(s)[x] <= 1
  {
    if s == [] {
    } else {
      var s', y := s[..|s| - 1], s[|s| - 1];
      assert s == s' + [y];
      DistinctIffSingles(s');
      DistinctSnoc(s', y);
      assert multiset(s) == multiset(s') + multiset{y};
      if Distinct(s) {
        forall x ensures multiset(s)[x] <= 1 {
          if x == y { assert multiset(s')[x] == 0; }
        }
      } else if Distinct(s') {
        assert y in s';
        assert multiset(s)[y] >= 2;
      } else {
        var x :| multiset(s')[x] > 1;
        assert multiset(s)[x] > 1;
      }
    }
  }

  lemma DistinctPermutation(a: seq<Card>, b: seq<Card>)
    requires multiset(a) == multiset(b)
    requires Distinct(a)
    ensures Distinct(b)
  {
    DistinctIffSingles(a);
    DistinctIffSingles(b);
  }

  /** A sequence of distinct cards holds as many cards as its set of cards. */
  lemma {:induction false} DistinctCardinality(s: seq<Card>)
    requires Distinct(s)
    ensures |Elements(s)| == |s|
  {
    if s != [] {
      var s', y := s[..|s| - 1], s[|s| - 1];
      assert s == s' + [y];
      DistinctSnoc(s', y);
      DistinctCardinality(s');
      assert Elements(s) == Elements(s') + {y};
    }
  }

  // ----- construction -----------------------------------------------------------------

  /** The constructor keeps exactly the first min(n, 5) cards, sorted ascending; without
      input the hand is empty. */
  lemma Construction(input: seq<Card>, cmp: Comparator)
    requires Consistent(cmp)
    ensures var n := if |input| < 5 then |input| else 5;
            && |SortBy(Prefix(input), cmp)| == n
            && multiset(SortBy(Prefix(input), cmp)) == multiset(input[..n])
            && SortedBy(SortBy(Prefix(input), cmp), cmp)
    ensures input == [] ==> SortBy(Prefix(input), cmp) == []
  {
    SortBySorted(Prefix(input), cmp);
  }

  /** The constructor does not reject duplicates: two copies of a card are both kept. */
  lemma ConstructionKeepsDuplicates(c: Card, cmp: Comparator)
    requires Consistent(cmp)
    ensures SortBy(Prefix([c, c]), cmp) == [c, c]
    ensures !Distinct(SortBy(Prefix([c, c]), cmp))
  {
    assert Prefix([c, c]) == [c, c];
    assert [c, c][1..] == [c];
    assert cmp(c, c) <= 0 || cmp(c, c) > 0;
  }

  // ----- addCard ----------------------------------------------------------------------

  /** `addCard` of a held card reports false and changes nothing; of any other card it
      reports true (there is no capacity refusal), the hand grows by exactly that card and
      ends sorted ascending. */
  lemma AddCardOutcome(cards: seq<Card>, c: Card, cmp: Comparator)
    requires Consistent(cmp)
    ensures Put(cards, c, cmp).added <==> c !in cards
    ensures c in cards ==> Put(cards, c, cmp).cards == cards
    ensures c !in cards ==>
              && |Put(cards, c, cmp).cards| == |cards| + 1
              && multiset(Put(cards, c, cmp).cards) == multiset(cards) + multiset{c}
              && SortedBy(Put(cards, c, cmp).cards, cmp)
  {
    assert c in cards ==> exists i :: 0 <= i < |cards| && cards[i] == c;
    SortBySorted(cards + [c], cmp);
  }

  /** The cards held after `addCard` are those held before and the one offered. */
  lemma AddCardMembers(cards: seq<Card>, c: Card, cmp: Comparator)
    requires Consistent(cmp)
    ensures forall x :: x in Put(cards, c, cmp).cards <==> x in cards || x == c
  {
    AddCardOutcome(cards, c, cmp);
    if c !in cards {
      forall x ensures x in Put(cards, c, cmp).cards <==> x in cards || x == c {
        assert x in Put(cards, c, cmp).cards <==> x in multiset(Put(cards, c, cmp).cards);
      }
    }
  }

  /** `addCard` keeps a duplicate-free hand duplicate-free. */
  lemma AddCardKeepsDistinct(cards: seq<Card>, c: Card, cmp: Comparator)
    requires Consistent(cmp)
    requires Distinct(cards)
    ensures Distinct(Put(cards, c, cmp).cards)
  {
    AddCardOutcome(cards, c, cmp);
    if c !in cards {
      DistinctSnoc(cards, c);
      DistinctPermutation(cards + [c], Put(cards, c, cmp).cards);
    }
  }

  /** There is no capacity check: a sixth distinct card is accepted by a hand of five. */
  lemma AddCardIgnoresCapacity(cmp: Comparator)
    requires Consistent(cmp)
    ensures var five := [Card(Clubs, Two), Card(Clubs, Three), Card(Clubs, Four), Card(Clubs, Five), Card(Clubs, Six)];
            && |five| == MaxHandSize
            && Put(five, Card(Clubs, Seven), cmp).added
            && |Put(five, Card(Clubs, Seven), cmp).cards| == MaxHandSize + 1
  {
    var five := [Card(Clubs, Two), Card(Clubs, Three), Card(Clubs, Four), Card(Clubs, Five), Card(Clubs, Six)];
    AddCardOutcome(five, Card(Clubs, Seven), cmp);
  }

  /** Adding the same card twice succeeds once and fails once; the hand grows by one. */
  lemma AddCardTwice(cards: seq<Card>, c: Card, cmp: Comparator)
    requires Consistent(cmp)
    requires c !in cards
    ensures Put(cards, c, cmp).added
    ensures !Put(Put(cards, c, cmp).cards, c, cmp).added
    ensures |Put(Put(cards, c, cmp).cards, c, cmp).cards| == |cards| + 1
  {
    AddCardOutcome(cards, c, cmp);
    AddCardMembers(cards, c, cmp);
    AddCardOutcome(Put(cards, c, cmp).cards, c, cmp);
  }

  // ----- addCards ---------------------------------------------------------------------

  /** Nothing is rolled back: after `addCards` the hand holds exactly the cards it held
      before together with all the cards offered. */
  lemma {:induction false} AddCardsMembers(cards: seq<Card>, cs: seq<Card>, cmp: Comparator)
    requires Consistent(cmp)
    ensures forall x :: x in AddAll(cards, cs, cmp).cards <==> x in cards || x in cs
    decreases |cs|
  {
    if cs != [] {
      var cs', y := cs[..|cs| - 1], cs[|cs| - 1];
      assert cs == cs' + [y];
      AddCardsMembers(cards, cs', cmp);
      AddCardMembers(AddAll(cards, cs', cmp).cards, y, cmp);
    }
  }

  /** `addCards` reports true exactly when the offered cards are pairwise distinct and none
      was held before. */
  lemma {:induction false} AddCardsReport(cards: seq<Card>, cs: seq<Card>, cmp: Comparator)
    requires Consistent(cmp)
    ensures AddAll(cards, cs, cmp).added <==> Distinct(cs) && forall x :: x in cs ==> x !in cards
    decreases |cs|
  {
    if cs != [] {
      var cs', y := cs[..|cs| - 1], cs[|cs| - 1];
      assert cs == cs' + [y];
      AddCardsReport(cards, cs', cmp);
      AddCardsMembers(cards, cs', cmp);
      AddCardOutcome(AddAll(cards, cs', cmp).cards, y, cmp);
      DistinctSnoc(cs', y);
    }
  }

  /** `addCards` keeps a duplicate-free hand duplicate-free, and then holds one card per
      distinct card among those held and those offered. */
  lemma {:induction false} AddCardsSize(cards: seq<Card>, cs: seq<Card>, cmp: Comparator)
    requires Consistent(cmp)
    requires Distinct(cards)
    ensures Distinct(AddAll(cards, cs, cmp).cards)
    ensures |AddAll(cards, cs, cmp).cards| == |Elements(cards) + Elements(cs)|
    decreases |cs|
  {
    if cs != [] {
      var cs', y := cs[..|cs| - 1], cs[|cs| - 1];
      assert cs == cs' + [y];
      AddCardsSize(cards, cs', cmp);
      AddCardKeepsDistinct(AddAll(cards, cs', cmp).cards, y, cmp);
    }
    var r := AddAll(cards, cs, cmp).cards;
    DistinctCardinality(r);
    AddCardsMembers(cards, cs, cmp);
    assert Elements(r) == Elements(cards) + Elements(cs);
  }

  /** On any hand, duplicates included, `addCards` adds one card for each distinct offered
      card that was not held: the hand grows by the number of new distinct cards. */
  lemma {:induction false} AddCardsCount(cards: seq<Card>, cs: seq<Card>, cmp: Comparator)
    requires Consistent(cmp)
    ensures |AddAll(cards, cs, cmp).cards| == |cards| + |Elements(cs) - Elements(cards)|
    decreases |cs|
  {
    if cs == [] {
      assert Elements(cs) - Elements(cards) == {};
    } else {
      var cs', y := cs[..|cs| - 1], cs[|cs| - 1];
      assert cs == cs' + [y];
      var before := AddAll(cards, cs', cmp).cards;
      AddCardsCount(cards, cs', cmp);
      AddCardsMembers(cards, cs', cmp);
      AddCardOutcome(before, y, cmp);
      var old_new, new_new := Elements(cs') - Elements(cards), Elements(cs) - Elements(cards);
      if y in before {
        assert new_new == old_new;
      } else {
        assert new_new == old_new + {y};
        assert y !in old_new;
      }
    }
  }

  /** After `addCards` the hand is sorted ascending if it was before or if a card was added. */
  lemma {:induction false} AddCardsSorted(cards: seq<Card>, cs: seq<Card>, cmp: Comparator)
    requires Consistent(cmp)
    requires SortedBy(cards, cmp) || |AddAll(cards, cs, cmp).cards| > |cards|
    ensures SortedBy(AddAll(cards, cs, cmp).cards, cmp)
    decreases |cs|
  {
    if cs != [] {
      var cs', y := cs[..|cs| - 1], cs[|cs| - 1];
      var before := AddAll(cards, cs', cmp).cards;
      AddCardOutcome(before, y, cmp);
      AddCardsGrows(cards, cs', cmp);
      if y in before {
        AddCardsSorted(cards, cs', cmp);
      }
    }
  }

  /** `addCards` never removes a card. */
  lemma {:induction false} AddCardsGrows(cards: seq<Card>, cs: seq<Card>, cmp: Comparator)
    requires Consistent(cmp)
    ensures |AddAll(cards, cs, cmp).cards| >= |cards|
    decreases |cs|
  {
    if cs != [] {
      var cs', y := cs[..|cs| - 1], cs[|cs| - 1];
      AddCardsGrows(cards, cs', cmp);
      AddCardOutcome(AddAll(cards, cs', cmp).cards, y, cmp);
    }
  }

  /** Two duplicate-free sequences holding the same cards are permutations of each other. */
  lemma SameElementsPermutation(a: seq<Card>, b: seq<Card>)
    requires Distinct(a) && Distinct(b)
    requires forall x :: x in a <==> x in b
    ensures multiset(a) == multiset(b)
  {
    DistinctIffSingles(a);
    DistinctIffSingles(b);
    forall x ensures multiset(a)[x] == multiset(b)[x] {
      assert x in a <==> x in multiset(a);
      assert x in b <==> x in multiset(b);
    }
  }

  // ----- sort -------------------------------------------------------------------------

  /** `sort(order)` sorts ascending exactly when `order` spells "asc" in any letter case. */
  lemma AscendingIgnoresCase(order: string)
    ensures IsAscending(order) <==>
              |order| == 3 && order[0] in "aA" && order[1] in "sS" && order[2] in "cC"
  {
    var lowered := ToLower(order);
    if |order| == 3 {
      assert lowered == [lowered[0], lowered[1], lowered[2]];
      LowerCharIs(order[0], 'a');
      LowerCharIs(order[1], 's');
      LowerCharIs(order[2], 'c');
    }
  }

  lemma LowerCharIs(ch: char, lower: char)
    requires 'a' <= lower <= 'z'
    ensures LowerChar(ch) == lower <==> ch == lower || ch as int == lower as int - 32
  {
  }

  // ----- the caches -------------------------------------------------------------------

  /** The ranking is read once, the hand is then changed by `addCard` and `sort('desc')`,
      and a second read returns the first value: the cache is never invalidated. */
  method StaleCombination<D>(h: Hand<D>, c: Card) returns (first: Combination, second: Combination)
    requires h.Valid()
    modifies h
    ensures first == old(h.CurrentCombination())
    ensures second == first
    ensures c !in old(h.cards) ==> multiset(h.cards) == multiset(old(h.cards)) + multiset{c}
    ensures c in old(h.cards) ==> multiset(h.cards) == multiset(old(h.cards))
  {
    first := h.GetCombination();
    var added := h.AddCard(c);
    AddCardOutcome(old(h.cards), c, h.cmp);
    h.Sort("desc");
    second := h.GetCombination();
  }

  /** The same for the draw-phase ranking. */
  method StaleDrawCombination<D>(h: Hand<D>, c: Card) returns (first: D, second: D)
    requires h.Valid()
    modifies h
    ensures old(h.drawCombinationCache).None? ==> first == h.evaluateDraw(old(h.cards))
    ensures second == first
  {
    first := h.GetDrawCombination();
    var added := h.AddCard(c);
    h.Sort("desc");
    second := h.GetDrawCombination();
  }

  /** Calling the nine category checks of a hand one after another: exactly one of them
      answers true, and every answer is about the same, first-read combination. */
  method CategoryChecksOfHand<D>(h: Hand<D>) returns (answers: seq<bool>)
    modifies h
    ensures answers == CategoryChecks(old(h.CurrentCombination()))
    ensures exists i :: 0 <= i < |answers| && answers[i]
    ensures forall i, j :: 0 <= i < |answers| && 0 <= j < |answers| && answers[i] && answers[j] ==> i == j
  {
    ghost var c := h.CurrentCombination();
    var kicker := h.IsKicker();
    var pair := h.IsPair();
    var twoPairs := h.IsTwoPairs();
    var three := h.IsThreeOfKind();
    var straight := h.IsStraight();
    var flush := h.IsFlush();
    var fullHouse := h.IsFullHouse();
    var four := h.IsFourOfKind();
    var straightFlush := h.IsStraightFlush();
    answers := [kicker, pair, twoPairs, three, straight, flush, fullHouse, four, straightFlush];
    ExactlyOneCategory(c);
  }

  // ----- the scenarios of test/hand.js ------------------------------------------------

  /** The clubs eight down to four, in the order the tests offer them. */
  function DescendingClubs(): seq<Card> {
    [Card(Clubs, Eight), Card(Clubs, Seven), Card(Clubs, Six), Card(Clubs, Five), Card(Clubs, Four)]
  }

  function AscendingClubs(): seq<Card> {
    [Card(Clubs, Four), Card(Clubs, Five), Card(Clubs, Six), Card(Clubs, Seven), Card(Clubs, Eight)]
  }

  function RepeatedClubs(): seq<Card> {
    [Card(Clubs, Eight), Card(Clubs, Eight), Card(Clubs, Six), Card(Clubs, Six), Card(Clubs, Four)]
  }

  /** "adds sequence of cards": an empty hand accepts five distinct cards. */
  lemma AddsSequenceOfCards(cs: seq<Card>, cmp: Comparator)
    requires Consistent(cmp)
    requires cs == DescendingClubs()
    ensures AddAll([], cs, cmp).added
    ensures |AddAll([], cs, cmp).cards| == 5
  {
    assert Distinct(cs);
    AddCardsReport([], cs, cmp);
    AddCardsSize([], cs, cmp);
    assert Elements([]) + Elements(cs) == Elements(cs);
    assert |Elements(cs)| == 5 by { DistinctCardinality(cs); }
  }

  /** "does not add repeated cards": the report is false, and the three distinct cards stay. */
  lemma DoesNotAddRepeatedCards(cs: seq<Card>, cmp: Comparator)
    requires Consistent(cmp)
    requires cs == RepeatedClubs()
    ensures !AddAll([], cs, cmp).added
    ensures |AddAll([], cs, cmp).cards| == 3
  {
    assert cs[0] == cs[1];
    AddCardsReport([], cs, cmp);
    AddCardsSize([], cs, cmp);
    assert Elements([]) + Elements(cs) == {Card(Clubs, Eight), Card(Clubs, Six), Card(Clubs, Four)};
  }

  /** "sorts card in ascending order by default": for any comparator that orders the clubs
      four to eight by value, offering them from eight down stores them from four up. */
  lemma SortsAscendingByDefault(cs: seq<Card>, cmp: Comparator)
    requires Consistent(cmp)
    requires cs == DescendingClubs()
    requires forall i, j :: 0 <= i < j < |AscendingClubs()| ==> cmp(AscendingClubs()[i], AscendingClubs()[j]) < 0
    ensures AddAll([], cs, cmp).cards == AscendingClubs()
  {
    assert Distinct(cs);
    var asc := AscendingClubs();
    assert forall x :: x in cs <==> x in asc;
    AddCardsArrangeStrictly(cs, asc, cmp);
  }

  /** Distinct cards offered to an empty hand end up in the one arrangement that the
      comparator orders strictly, whatever order they were offered in. */
  lemma AddCardsArrangeStrictly(cs: seq<Card>, asc: seq<Card>, cmp: Comparator)
    requires Consistent(cmp)
    requires Distinct(cs)
    requires forall x :: x in cs <==> x in asc
    requires forall i, j :: 0 <= i < j < |asc| ==> cmp(asc[i], asc[j]) < 0
    ensures AddAll([], cs, cmp).cards == asc
  {
    var r := AddAll([], cs, cmp).cards;
    AddCardsReport([], cs, cmp);
    AddCardsSize([], cs, cmp);
    AddCardsMembers([], cs, cmp);
    AddCardsSorted([], cs, cmp);
    NoTies(asc, cmp);
    assert Distinct(asc);
    assert SortedBy(asc, cmp);
    SameElementsPermutation(asc, r);
    SortedUnique(asc, r, cmp);
  }

  /** Strictly ordered cards have no ties. */
  lemma NoTies(s: seq<Card>, cmp: Comparator)
    requires Consistent(cmp)
    requires forall i, j :: 0 <= i < j < |s| ==> cmp(s[i], s[j]) < 0
    ensures forall x, y :: x in s && y in s && cmp(x, y) == 0 ==> x == y
  {
    forall x, y | x in s && y in s && cmp(x, y) == 0 ensures x == y {
      var i :| 0 <= i < |s| && s[i] == x;
      var j :| 0 <= j < |s| && s[j] == y;
      assert i == j;
    }
  }
}
