/** The comparator-driven, stable, in-place sort the hand delegates to
    (JavaScript's `Array.prototype.sort`), modelled as a function on sequences. */
module Sorting {
  import opened Cards

  /** A JavaScript comparator: negative, zero or positive for "before", "tie", "after". */
  type Comparator = (Card, Card) -> int

  /** What a comparator must satisfy for a sort to be meaningful: the signs of
      `cmp(a, b)` and `cmp(b, a)` are opposite, and "not after" is transitive. */
  ghost predicate Consistent(cmp: Comparator) {
    && (forall a, b :: cmp(a, b) < 0 <==> cmp(b, a) > 0)
    && (forall a, b, c :: cmp(a, b) <= 0 && cmp(b, c) <= 0 ==> cmp(a, c) <= 0)
  }

  /** The comparator with its arguments swapped, which orders descending. */
  function Reversed(cmp: Comparator): Comparator {
    (l, r) => cmp(r, l)
  }

  /** Every card of `s` is "not after" every later card. */
  ghost predicate SortedBy(s: seq<Card>, cmp: Comparator) {
    forall i, j :: 0 <= i < j < |s| ==> cmp(s[i], s[j]) <= 0
  }

  /** Inserts `x` before the first card it is not after; `x` comes before the cards it ties with. */
  function Insert(x: Card, s: seq<Card>, cmp: Comparator): (r: seq<Card>)
    ensures |r| == |s| + 1
    ensures multiset(r) == multiset(s) + multiset{x}
  {
    if s == [] then [x]
    else if cmp(x, s[0]) <= 0 then [x] + s
    else
      assert s == [s[0]] + s[1..];
      [s[0]] + Insert(x, s[1..], cmp)
  }

  /** A stable sort of `s` by `cmp`: cards that tie keep their relative order. */
  function SortBy(s: seq<Card>, cmp: Comparator): (r: seq<Card>)
    ensures |r| == |s|
    ensures multiset(r) == multiset(s)
  {
    if s == [] then []
    else
      assert s == [s[0]] + s[1..];
      Insert(s[0], SortBy(s[1..], cmp), cmp)
  }

  lemma ReversedConsistent(cmp: Comparator)
    requires Consistent(cmp)
    ensures Consistent(Reversed(cmp))
    ensures forall a, b :: Reversed(cmp)(a, b) == cmp(b, a)
  {
  }

  /** Consing a card that is not after any card of a sorted sequence keeps it sorted. */
  lemma SortedCons(x: Card, s: seq<Card>, cmp: Comparator)
    requires SortedBy(s, cmp)
    requires forall y :: y in s ==> cmp(x, y) <= 0
    ensures SortedBy([x] + s, cmp)
  {
    var t := [x] + s;
    forall i, j | 0 <= i < j < |t| ensures cmp(t[i], t[j]) <= 0 {
      if i == 0 {
        assert t[j] == s[j - 1];
      } else {
        assert t[i] == s[i - 1] && t[j] == s[j - 1];
      }
    }
  }

  lemma {:induction false} InsertSorted(x: Card, s: seq<Card>, cmp: Comparator)
    requires Consistent(cmp)
    requires SortedBy(s, cmp)
    ensures SortedBy(Insert(x, s, cmp), cmp)
  {
    if s == [] {
    } else if cmp(x, s[0]) <= 0 {
      BeforeHead(x, s, cmp);
      SortedCons(x, s, cmp);
    } else {
      SortedTail(s, cmp);
      InsertSorted(x, s[1..], cmp);
      HeadBeforeInsert(x, s, cmp);
      SortedCons(s[0], Insert(x, s[1..], cmp), cmp);
    }
  }

  /** A card not after the head of a sorted sequence is not after any of its cards. */
  lemma BeforeHead(x: Card, s: seq<Card>, cmp: Comparator)
    requires Consistent(cmp)
    requires SortedBy(s, cmp) && |s| > 0 && cmp(x, s[0]) <= 0
    ensures forall y :: y in s ==> cmp(x, y) <= 0
  {
    forall y | y in s ensures cmp(x, y) <= 0 {
      var k :| 0 <= k < |s| && s[k] == y;
      if k > 0 { assert cmp(s[0], s[k]) <= 0; }
    }
  }

  /** When `x` is after the head of a sorted sequence, the head is not after any card of
      the insertion of `x` into the tail. */
  lemma HeadBeforeInsert(x: Card, s: seq<Card>, cmp: Comparator)
    requires Consistent(cmp)
    requires SortedBy(s, cmp) && |s| > 0 && cmp(x, s[0]) > 0
    ensures forall y :: y in Insert(x, s[1..], cmp) ==> cmp(s[0], y) <= 0
  {
    var ins := Insert(x, s[1..], cmp);
    forall y | y in ins ensures cmp(s[0], y) <= 0 {
      assert y in multiset(ins);
      if y != x {
        assert y in s[1..];
        var k :| 0 <= k < |s| - 1 && s[1..][k] == y;
        assert s[k + 1] == y;
      }
    }
  }

  /** The result of `SortBy` is sorted. */
  lemma {:induction false} SortBySorted(s: seq<Card>, cmp: Comparator)
    requires Consistent(cmp)
    ensures SortedBy(SortBy(s, cmp), cmp)
  {
    if s != [] {
      SortBySorted(s[1..], cmp);
      InsertSorted(s[0], SortBy(s[1..], cmp), cmp);
    }
  }

  /** The first card of a sorted sequence is not after any of its cards. */
  lemma FirstIsLeast(s: seq<Card>, cmp: Comparator)
    requires Consistent(cmp)
    requires SortedBy(s, cmp) && |s| > 0
    ensures forall y :: y in s ==> cmp(s[0], y) <= 0
  {
    forall y | y in s ensures cmp(s[0], y) <= 0 {
      var k :| 0 <= k < |s| && s[k] == y;
      if k == 0 { assert cmp(y, y) <= 0 || cmp(y, y) > 0; }
    }
  }

  /** No card of a sorted sequence is after its last card. */
  lemma LastIsGreatest(s: seq<Card>, cmp: Comparator)
    requires Consistent(cmp)
    requires SortedBy(s, cmp) && |s| > 0
    ensures forall y :: y in s ==> cmp(y, s[|s| - 1]) <= 0
  {
    forall y | y in s ensures cmp(y, s[|s| - 1]) <= 0 {
      var k :| 0 <= k < |s| && s[k] == y;
      if k == |s| - 1 { assert cmp(y, y) <= 0 || cmp(y, y) > 0; }
    }
  }

  lemma SortedTail(s: seq<Card>, cmp: Comparator)
    requires SortedBy(s, cmp) && |s| > 0
    ensures SortedBy(s[1..], cmp)
  {
    var t := s[1..];
    forall i, j | 0 <= i < j < |t| ensures cmp(t[i], t[j]) <= 0 {
      assert t[i] == s[i + 1] && t[j] == s[j + 1];
    }
  }

  /** Two cards neither of which is after the other tie. */
  lemma Tie(a: Card, b: Card, cmp: Comparator)
    requires Consistent(cmp)
    requires cmp(a, b) <= 0 && cmp(b, a) <= 0
    ensures cmp(a, b) == 0
  {
  }

  lemma TailsAgree(s: seq<Card>, t: seq<Card>)
    requires |s| > 0 && |t| > 0 && s[0] == t[0]
    requires multiset(s) == multiset(t)
    ensures multiset(s[1..]) == multiset(t[1..])
  {
    assert s == [s[0]] + s[1..] && t == [t[0]] + t[1..];
    calc {
      multiset(s[1..]);
      multiset(s) - multiset{s[0]};
      multiset(t) - multiset{t[0]};
      multiset(t[1..]);
    }
  }

  /** With no ties between distinct cards, a sorted arrangement of given cards is unique. */
  lemma {:induction false} SortedUnique(s: seq<Card>, t: seq<Card>, cmp: Comparator)
    requires Consistent(cmp)
    requires SortedBy(s, cmp) && SortedBy(t, cmp)
    requires multiset(s) == multiset(t)
    requires forall x, y :: x in s && y in s && cmp(x, y) == 0 ==> x == y
    ensures s == t
  {
    assert |t| == |multiset(t)| == |multiset(s)| == |s|;
    if s != [] {
      var a, b := s[0], t[0];
      assert a in t && b in s by {
        assert a in multiset(t) && b in multiset(s);
      }
      FirstIsLeast(s, cmp);
      FirstIsLeast(t, cmp);
      Tie(a, b, cmp);
      assert a == b;
      TailsAgree(s, t);
      SortedTail(s, cmp);
      SortedTail(t, cmp);
      SortedUnique(s[1..], t[1..], cmp);
    }
  }
}
