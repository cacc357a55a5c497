/**
 * Random deals, made deterministic: the k-th call of RANDOM.nextInt(deck
 * size) is given as rolls[k], and the deck and the drawn cards are functions
 * of the starting deck and the rolls.
 */
module Draws {
  import opened Cards

  /**
   * The rolls can serve every draw from a deck of `size` cards: the k-th
   * draw sees size - k cards, and nextInt promises a result below that.
   */
  predicate Fits(rolls: seq<nat>, size: nat) {
    size <= |rolls| && forall k :: 0 <= k < size ==> rolls[k] < size - k
  }

  /** The deck after n draws, each removing the card at the next roll's index. */
  function Remaining(deck: seq<Card>, rolls: seq<nat>, n: nat): (rest: seq<Card>)
    requires Fits(rolls, |deck|) && n <= |deck|
    ensures |rest| == |deck| - n
    decreases n
  {
    if n == 0 then deck
    else
      var before := Remaining(deck, rolls, n - 1);
      before[..rolls[n - 1]] + before[rolls[n - 1] + 1..]
  }

  /** The cards taken by the first n draws, in the order they were taken. */
  function Drawn(deck: seq<Card>, rolls: seq<nat>, n: nat): (cards: seq<Card>)
    requires Fits(rolls, |deck|) && n <= |deck|
    ensures |cards| == n
    decreases n
  {
    if n == 0 then []
    else Drawn(deck, rolls, n - 1) + [Remaining(deck, rolls, n - 1)[rolls[n - 1]]]
  }

  /** Drawing moves cards and never creates or loses one: the rest and the drawn cards are the starting deck. */
  lemma {:induction false} DrawsConserveCards(deck: seq<Card>, rolls: seq<nat>, n: nat)
    requires Fits(rolls, |deck|) && n <= |deck|
    ensures multiset(Remaining(deck, rolls, n)) + multiset(Drawn(deck, rolls, n)) == multiset(deck)
    decreases n
  {
    if n > 0 {
      DrawsConserveCards(deck, rolls, n - 1);
      var before := Remaining(deck, rolls, n - 1);
      var i := rolls[n - 1];
      var taken := Drawn(deck, rolls, n - 1);
      assert Remaining(deck, rolls, n) == before[..i] + before[i + 1..];
      assert Drawn(deck, rolls, n) == taken + [before[i]];
      RemoveAtMultiset(before, i);
      calc {
        multiset(Remaining(deck, rolls, n)) + multiset(Drawn(deck, rolls, n));
        multiset(before[..i] + before[i + 1..]) + (multiset(taken) + multiset{before[i]});
        multiset(before) + multiset(taken);
        multiset(deck);
      }
    }
  }

  /** What is left of a script after n draws serves the n-times smaller deck. */
  lemma FitsAfter(rolls: seq<nat>, size: nat, n: nat)
    requires Fits(rolls, size) && n <= size
    ensures Fits(rolls[n..], size - n)
  {
    forall k | 0 <= k < size - n
      ensures rolls[n..][k] < size - n - k
    {
      assert rolls[n..][k] == rolls[n + k];
    }
  }

  /** The n + 1 draws made one after the other: the (n+1)-th takes the card at rolls[n] from the deck left by the first n. */
  lemma DrawStep(deck: seq<Card>, rolls: seq<nat>, n: nat)
    requires Fits(rolls, |deck|) && n < |deck|
    ensures rolls[n] < |Remaining(deck, rolls, n)|
    ensures Remaining(deck, rolls, n + 1) ==
              Remaining(deck, rolls, n)[..rolls[n]] + Remaining(deck, rolls, n)[rolls[n] + 1..]
    ensures Drawn(deck, rolls, n + 1) == Drawn(deck, rolls, n) + [Remaining(deck, rolls, n)[rolls[n]]]
  {
  }

  /** Drawing n cards and then m more from what is left leaves the deck that n + m draws leave. */
  lemma {:induction false} RemainingCompose(deck: seq<Card>, rolls: seq<nat>, n: nat, m: nat)
    requires Fits(rolls, |deck|) && n + m <= |deck|
    ensures Fits(rolls[n..], |deck| - n)
    ensures Remaining(Remaining(deck, rolls, n), rolls[n..], m) == Remaining(deck, rolls, n + m)
    decreases m
  {
    FitsAfter(rolls, |deck|, n);
    if m > 0 {
      RemainingCompose(deck, rolls, n, m - 1);
      assert rolls[n..][m - 1] == rolls[n + m - 1];
    }
  }

  /** Drawing n cards and then m more from what is left draws the cards n + m draws take, in the same order. */
  lemma {:induction false} DrawnCompose(deck: seq<Card>, rolls: seq<nat>, n: nat, m: nat)
    requires Fits(rolls, |deck|) && n + m <= |deck|
    ensures Fits(rolls[n..], |deck| - n)
    ensures Drawn(deck, rolls, n + m) == Drawn(deck, rolls, n) + Drawn(Remaining(deck, rolls, n), rolls[n..], m)
    decreases m
  {
    FitsAfter(rolls, |deck|, n);
    if m > 0 {
      DrawnCompose(deck, rolls, n, m - 1);
      RemainingCompose(deck, rolls, n, m - 1);
      assert rolls[n..][m - 1] == rolls[n + m - 1];
      var next := Remaining(deck, rolls, n + m - 1)[rolls[n + m - 1]];
      SnocAssoc(Drawn(deck, rolls, n), Drawn(Remaining(deck, rolls, n), rolls[n..], m - 1), next);
    }
  }

  /** The k-th card drawn is the same however many draws follow it. */
  lemma {:induction false} DrawnAt(deck: seq<Card>, rolls: seq<nat>, k: nat, n: nat)
    requires Fits(rolls, |deck|) && k < n <= |deck|
    ensures Drawn(deck, rolls, n)[k] == Drawn(deck, rolls, k + 1)[k]
    decreases n
  {
    if k + 1 < n {
      DrawnAt(deck, rolls, k, n - 1);
    }
  }

  /** The order in which the rolls would take every card of the deck: a shuffle of it. */
  function Order(deck: seq<Card>, rolls: seq<nat>): (cards: seq<Card>)
    requires Fits(rolls, |deck|)
    ensures |cards| == |deck|
  {
    Drawn(deck, rolls, |deck|)
  }

  /** The order is a permutation of the deck. */
  lemma OrderIsPermutation(deck: seq<Card>, rolls: seq<nat>)
    requires Fits(rolls, |deck|)
    ensures multiset(Order(deck, rolls)) == multiset(deck)
  {
    DrawsConserveCards(deck, rolls, |deck|);
    assert Remaining(deck, rolls, |deck|) == [];
  }

  /** The first n draws take the first n cards of the order. */
  lemma DrawnIsPrefix(deck: seq<Card>, rolls: seq<nat>, n: nat)
    requires Fits(rolls, |deck|) && n <= |deck|
    ensures Drawn(deck, rolls, n) == Order(deck, rolls)[..n]
  {
    forall k | 0 <= k < n
      ensures Drawn(deck, rolls, n)[k] == Order(deck, rolls)[k]
    {
      DrawnAt(deck, rolls, k, n);
      DrawnAt(deck, rolls, k, |deck|);
    }
  }

  /** After n draws the deck holds exactly the cards of the order not yet taken. */
  lemma RemainingHoldsRest(deck: seq<Card>, rolls: seq<nat>, n: nat)
    requires Fits(rolls, |deck|) && n <= |deck|
    ensures multiset(Remaining(deck, rolls, n)) == multiset(Order(deck, rolls)[n..])
  {
    var order := Order(deck, rolls);
    DrawsConserveCards(deck, rolls, n);
    DrawnIsPrefix(deck, rolls, n);
    OrderIsPermutation(deck, rolls);
    assert order == order[..n] + order[n..];
    var rest, taken, left := multiset(Remaining(deck, rolls, n)), multiset(order[..n]), multiset(order[n..]);
    assert rest + taken == taken + left;
    assert forall c :: rest[c] == left[c] by {
      forall c ensures rest[c] == left[c] {
        assert (rest + taken)[c] == (taken + left)[c];
      }
    }
  }

  /** Drawing from the deck left after n draws, with the rolls not yet used, continues the same order. */
  lemma OrderAfter(deck: seq<Card>, rolls: seq<nat>, n: nat)
    requires Fits(rolls, |deck|) && n <= |deck|
    ensures Fits(rolls[n..], |Remaining(deck, rolls, n)|)
    ensures Order(Remaining(deck, rolls, n), rolls[n..]) == Order(deck, rolls)[n..]
  {
    DrawnCompose(deck, rolls, n, |deck| - n);
  }
}
