/**
 * The hand-scoring rule: every card counts its value, an Ace starts at 11,
 * and Aces are counted as 1 instead, one at a time, while the total is over 21.
 */
module Scoring {
  import opened Cards

  /** The value of each card of a hand, in hand order. */
  function Values(hand: seq<Card>): seq<int> {
    seq(|hand|, i requires 0 <= i < |hand| => hand[i].value)
  }

  /** The sum of the first n values. */
  function TotalOf(vs: seq<int>, n: nat): int
    requires n <= |vs|
  {
    if n == 0 then 0 else TotalOf(vs, n - 1) + vs[n - 1]
  }

  /** How many of the first n values equal 11. */
  function AcesOf(vs: seq<int>, n: nat): nat
    requires n <= |vs|
  {
    if n == 0 then 0 else AcesOf(vs, n - 1) + (if vs[n - 1] == 11 then 1 else 0)
  }

  /** The sum of a sequence of values (the total with every Ace counted as 11). */
  function Total(vs: seq<int>): int {
    TotalOf(vs, |vs|)
  }

  /** How many values equal 11: the cards counted as Aces. */
  function Aces(vs: seq<int>): nat {
    AcesOf(vs, |vs|)
  }

  /** The running sums over a common prefix of two sequences agree. */
  lemma {:induction false} PrefixTallies(a: seq<int>, b: seq<int>, n: nat)
    requires n <= |a| && n <= |b| && a[..n] == b[..n]
    ensures TotalOf(a, n) == TotalOf(b, n) && AcesOf(a, n) == AcesOf(b, n)
  {
    if n > 0 {
      assert a[n - 1] == a[..n][n - 1] == b[..n][n - 1] == b[n - 1];
      assert a[..n - 1] == a[..n][..n - 1] == b[..n][..n - 1] == b[..n - 1];
      PrefixTallies(a, b, n - 1);
    }
  }

  /** The total once k of its Aces count 1 instead of 11. */
  function Lowered(total: int, k: int): int {
    total - 10 * k
  }

  /**
   * The number of Aces to count as 1: the least k, at most the number of
   * Aces, that brings the total to 21 or below, and all of them if none does.
   */
  function Demotions(total: int, aces: nat): (k: nat)
    ensures k <= aces
    ensures Lowered(total, k) <= 21 || k == aces
    ensures forall j :: 0 <= j < k ==> Lowered(total, j) > 21
  {
    if total <= 21 then 0
    else if (total - 12) / 10 < aces then (total - 12) / 10
    else aces
  }

  /** A count of demotions meeting the characterisation above is the one Demotions picks. */
  lemma DemotionsUnique(total: int, aces: nat, k: nat)
    requires k <= aces
    requires Lowered(total, k) <= 21 || k == aces
    requires forall j :: 0 <= j < k ==> Lowered(total, j) > 21
    ensures k == Demotions(total, aces)
  {
  }

  /** The score of a hand. */
  function Score(hand: seq<Card>): int {
    var vs := Values(hand);
    Lowered(Total(vs), Demotions(Total(vs), Aces(vs)))
  }

  /**
   * The score is the best total reachable by counting some of the Aces as 1:
   * no reachable total of 21 or less beats it, it is 21 or less whenever some
   * reachable total is, and otherwise every Ace counts as 1.
   */
  lemma ScoreIsBest(hand: seq<Card>, j: nat)
    requires j <= Aces(Values(hand))
    ensures Lowered(Total(Values(hand)), j) <= 21 ==> Lowered(Total(Values(hand)), j) <= Score(hand) <= 21
    ensures Score(hand) > 21 ==> Score(hand) == Lowered(Total(Values(hand)), Aces(Values(hand)))
  {
  }

  /** A hand is bust exactly when even counting every Ace as 1 leaves it over 21. */
  lemma BustIffAllAcesLow(hand: seq<Card>)
    ensures Score(hand) > 21 <==> Lowered(Total(Values(hand)), Aces(Values(hand))) > 21
  {
    ScoreIsBest(hand, Aces(Values(hand)));
  }

  /** The running sum over a + b continues into b once a is summed. */
  lemma {:induction false} TotalOfAppend(a: seq<int>, b: seq<int>, k: nat)
    requires k <= |b|
    ensures TotalOf(a + b, |a| + k) == Total(a) + TotalOf(b, k)
  {
    if k == 0 {
      PrefixTallies(a + b, a, |a|);
    } else {
      TotalOfAppend(a, b, k - 1);
    }
  }

  lemma TotalAppend(a: seq<int>, b: seq<int>)
    ensures Total(a + b) == Total(a) + Total(b)
  {
    TotalOfAppend(a, b, |b|);
  }

  /** A value added at the end is added to the total. */
  lemma TotalSnoc(vs: seq<int>, x: int)
    ensures Total(vs + [x]) == Total(vs) + x
  {
    PrefixTallies(vs + [x], vs, |vs|);
  }

  /** Taking the value at index i out of a sequence takes it out of the total. */
  lemma TotalRemoveAt(vs: seq<int>, i: nat)
    requires i < |vs|
    ensures Total(vs) == Total(vs[..i] + vs[i + 1..]) + vs[i]
  {
    var l, r := vs[..i], vs[i + 1..];
    assert vs == l + [vs[i]] + r;
    TotalAppend(l + [vs[i]], r);
    TotalSnoc(l, vs[i]);
    TotalAppend(l, r);
  }

  /** The total depends only on the multiset of values. */
  lemma {:induction false} TotalPermutation(a: seq<int>, b: seq<int>)
    requires multiset(a) == multiset(b)
    ensures Total(a) == Total(b)
    decreases |a|
  {
    if a == [] {
      assert |multiset(b)| == 0;
    } else {
      var x, front := a[|a| - 1], a[..|a| - 1];
      assert a == front + [x];
      assert x in multiset(b);
      var i :| 0 <= i < |b| && b[i] == x;
      var rest := b[..i] + b[i + 1..];
      RemoveAtMultiset(b, i);
      assert multiset(front) == multiset(a) - multiset{x};
      assert multiset(rest) == multiset(b) - multiset{x};
      TotalPermutation(front, rest);
      TotalRemoveAt(b, i);
      TotalSnoc(front, x);
    }
  }

  lemma {:induction false} AcesOfIsMultiplicity(vs: seq<int>, n: nat)
    requires n <= |vs|
    ensures AcesOf(vs, n) == multiset(vs[..n])[11]
  {
    if n > 0 {
      assert vs[..n] == vs[..n - 1] + [vs[n - 1]];
      AcesOfIsMultiplicity(vs, n - 1);
    }
  }

  /** The Ace count is the multiplicity of 11 among the values. */
  lemma AcesIsMultiplicity(vs: seq<int>)
    ensures Aces(vs) == multiset(vs)[11]
  {
    AcesOfIsMultiplicity(vs, |vs|);
    assert vs[..|vs|] == vs;
  }

  /** The score depends only on the multiset of card values, whatever the order of the hand. */
  lemma ScoreDependsOnValuesOnly(h1: seq<Card>, h2: seq<Card>)
    requires multiset(Values(h1)) == multiset(Values(h2))
    ensures Score(h1) == Score(h2)
  {
    TotalPermutation(Values(h1), Values(h2));
    AcesIsMultiplicity(Values(h1));
    AcesIsMultiplicity(Values(h2));
  }

  /** Taking the card at index i out of a hand takes its value out of the values. */
  lemma ValuesRemoveAt(hand: seq<Card>, i: nat)
    requires i < |hand|
    ensures multiset(Values(hand)) == multiset(Values(hand[..i] + hand[i + 1..])) + multiset{hand[i].value}
  {
    var vs := Values(hand);
    assert Values(hand[..i] + hand[i + 1..]) == vs[..i] + vs[i + 1..];
    RemoveAtMultiset(vs, i);
  }

  /** Permuting the cards of a hand permutes their values. */
  lemma {:induction false} ValuesPermutation(h1: seq<Card>, h2: seq<Card>)
    requires multiset(h1) == multiset(h2)
    ensures multiset(Values(h1)) == multiset(Values(h2))
    decreases |h1|
  {
    if h1 == [] {
      assert |multiset(h2)| == 0;
    } else {
      var c, front := h1[|h1| - 1], h1[..|h1| - 1];
      assert h1 == front + [c];
      assert c in multiset(h2);
      var i :| 0 <= i < |h2| && h2[i] == c;
      var rest := h2[..i] + h2[i + 1..];
      RemoveAtMultiset(h2, i);
      assert multiset(front) == multiset(h1) - multiset{c};
      assert multiset(rest) == multiset(h2) - multiset{c};
      ValuesPermutation(front, rest);
      ValuesRemoveAt(h2, i);
      ValuesSnoc(front, c);
    }
  }

  /** Reordering the hand does not change its score. */
  lemma ScoreOfReorderedHand(h1: seq<Card>, h2: seq<Card>)
    requires multiset(h1) == multiset(h2)
    ensures Score(h1) == Score(h2)
  {
    ValuesPermutation(h1, h2);
    ScoreDependsOnValuesOnly(h1, h2);
  }

  /** Adding a card to the end of a hand adds its value to the running totals. */
  lemma ValuesSnoc(hand: seq<Card>, c: Card)
    ensures Values(hand + [c]) == Values(hand) + [c.value]
    ensures Total(Values(hand + [c])) == Total(Values(hand)) + c.value
    ensures Aces(Values(hand + [c])) == Aces(Values(hand)) + (if c.value == 11 then 1 else 0)
  {
    var vs := Values(hand + [c]);
    PrefixTallies(vs, Values(hand), |hand|);
  }

  /** Every hand of `from` or more cards that came before the whole of `hand` scored below `limit`. */
  predicate ScoredBelow(hand: seq<Card>, from: nat, limit: int) {
    forall j :: from <= j < |hand| ==> Score(hand[..j]) < limit
  }

  /** A card may be added to a hand that scores below the limit and the earlier hands keep their scores. */
  lemma ScoredBelowSnoc(hand: seq<Card>, from: nat, limit: int, c: Card)
    requires from <= |hand| && ScoredBelow(hand, from, limit) && Score(hand) < limit
    ensures ScoredBelow(hand + [c], from, limit)
  {
    forall j | from <= j < |hand + [c]|
      ensures Score((hand + [c])[..j]) < limit
    {
      if j < |hand| {
        assert (hand + [c])[..j] == hand[..j];
      } else {
        assert (hand + [c])[..j] == hand;
      }
    }
  }

  /** Two Aces and a nine score 21: one Ace counts 11 and the other 1. */
  lemma ScoreAceAceNine()
    ensures Score([Card("Ace", "Spades", 11), Card("Ace", "Hearts", 11), Card("9", "Clubs", 9)]) == 21
  {
    var a1, a2, n9 := Card("Ace", "Spades", 11), Card("Ace", "Hearts", 11), Card("9", "Clubs", 9);
    ValuesSnoc([], a1);
    ValuesSnoc([a1], a2);
    ValuesSnoc([a1, a2], n9);
    assert [] + [a1] == [a1] && [a1] + [a2] == [a1, a2] && [a1, a2] + [n9] == [a1, a2, n9];
  }

  /** King and Queen score 20. */
  lemma ScoreKingQueen()
    ensures Score([Card("King", "Spades", 10), Card("Queen", "Hearts", 10)]) == 20
  {
    var k, q := Card("King", "Spades", 10), Card("Queen", "Hearts", 10);
    ValuesSnoc([], k);
    ValuesSnoc([k], q);
    assert [] + [k] == [k] && [k] + [q] == [k, q];
  }

  /** Ace, King and five: 26 with the Ace as 11, so the Ace counts 1 and the score is 16. */
  lemma ScoreAceKingFive()
    ensures Score([Card("Ace", "Spades", 11), Card("King", "Hearts", 10), Card("5", "Clubs", 5)]) == 16
  {
    var a, k, f := Card("Ace", "Spades", 11), Card("King", "Hearts", 10), Card("5", "Clubs", 5);
    ValuesSnoc([], a);
    ValuesSnoc([a], k);
    ValuesSnoc([a, k], f);
    assert [] + [a] == [a] && [a] + [k] == [a, k] && [a, k] + [f] == [a, k, f];
  }
}
