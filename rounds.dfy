/**
 * The whole game after the names are read, as a function of the order in
 * which the deck is dealt and of the answers typed: the sequence of main.
 */
module Rounds {
  import opened Cards
  import opened Scoring
  import opened Outcomes
  import opened Turns

  /** How the game ends: a message printed by determineWinner, or an exception. */
  datatype GameResult = Decided(verdict: Verdict) | Crashed(why: Abort)

  /** How the players' turns went: one of them was ended by an exception, or both ended normally. */
  datatype Ending = TurnAborted(why: Abort) | TurnsDone

  /**
   * The players' turns of a game, placed on the order of the deal: player
   * 1's hits are the cards from 6 to cut1 and player 2's those from cut1 to
   * cut2; `read` answers were read.
   */
  datatype Table = Table(cut1: nat, cut2: nat, read: nat, ending: Ending)

  /** The cuts of `t` lie in order within `order`, after the six cards of the first deal. */
  predicate Cuts(order: seq<Card>, t: Table) {
    6 <= t.cut1 <= t.cut2 <= |order|
  }

  /** Player 1's hand: the first two cards dealt, then its hits. */
  function Hand1(order: seq<Card>, t: Table): (h: seq<Card>)
    requires Cuts(order, t)
    ensures |h| == t.cut1 - 4 && h[..2] == order[..2]
  {
    [order[0], order[1]] + order[6..t.cut1]
  }

  /** Player 2's hand: the third and fourth cards dealt, then its hits. */
  function Hand2(order: seq<Card>, t: Table): (h: seq<Card>)
    requires Cuts(order, t)
    ensures |h| == t.cut2 - t.cut1 + 2 && h[..2] == order[2..4]
  {
    [order[2], order[3]] + order[t.cut1..t.cut2]
  }

  /** The guard of main around playDealerTurn: both turns ended normally and some player scores 21 or less. */
  predicate DealerPlays(order: seq<Card>, t: Table)
    requires Cuts(order, t)
  {
    t.ending == TurnsDone && (Score(Hand1(order, t)) <= 21 || Score(Hand2(order, t)) <= 21)
  }

  /** The dealer's turn, on the cards after cut2, if main plays it; no draws otherwise. */
  function DealerRun(order: seq<Card>, t: Table): (r: DealerTurnResult)
    requires Cuts(order, t)
    ensures t.cut2 + r.draws <= |order|
  {
    if DealerPlays(order, t) then DealerTurn(order[t.cut2..], [order[4], order[5]])
    else DealerTurnResult(true, 0)
  }

  /** How many cards the game dealt. */
  function Dealt(order: seq<Card>, t: Table): (n: nat)
    requires Cuts(order, t)
    ensures t.cut2 <= n <= |order|
  {
    t.cut2 + DealerRun(order, t).draws
  }

  /** The dealer's hand: the fifth and sixth cards dealt, then its draws. */
  function DealerHand(order: seq<Card>, t: Table): (h: seq<Card>)
    requires Cuts(order, t)
    ensures |h| == Dealt(order, t) - t.cut2 + 2 && h[..2] == order[4..6]
  {
    [order[4], order[5]] + order[t.cut2..Dealt(order, t)]
  }

  /**
   * How main ends: the exception that ended a player's turn, or the one
   * that ended the dealer's when the deck ran out, or else the message
   * determineWinner prints for the final scores.
   */
  function Result(order: seq<Card>, t: Table): GameResult
    requires Cuts(order, t)
  {
    if t.ending.TurnAborted? then Crashed(t.ending.why)
    else if !DealerRun(order, t).finished then Crashed(DeckExhausted)
    else Decided(DetermineWinner(Score(Hand1(order, t)), Score(Hand2(order, t)), Score(DealerHand(order, t))))
  }

  /**
   * main: two cards each to player 1, player 2 and the dealer, in that
   * order, then player 1's turn; the game is over if an exception ends it.
   * `order` is the order in which the deck is dealt.
   */
  function Play(order: seq<Card>, choices: seq<bool>): (t: Table)
    requires |order| >= 6
    ensures Cuts(order, t) && t.read <= |choices|
  {
    var t1 := PlayerTurn(order[6..], [order[0], order[1]], choices);
    var cut1 := 6 + t1.draws;
    if t1.end.Aborted? then Table(cut1, cut1, t1.used, TurnAborted(t1.end.why))
    else SecondTurn(order, choices, cut1, t1.used)
  }

  /**
   * Player 2's turn, once player 1's ended normally after `cut1` deals and
   * `read` answers, on the cards and the answers left.
   */
  function SecondTurn(order: seq<Card>, choices: seq<bool>, cut1: nat, read: nat): (t: Table)
    requires 6 <= cut1 <= |order| && read <= |choices|
    ensures Cuts(order, t) && t.cut1 == cut1 && read <= t.read <= |choices|
  {
    var t2 := PlayerTurn(order[cut1..], [order[2], order[3]], choices[read..]);
    var cut2 := cut1 + t2.draws;
    Table(cut1, cut2, read + t2.used, if t2.end.Aborted? then TurnAborted(t2.end.why) else TurnsDone)
  }

  // ---------------------------------------------------------------------------
  // The stages of Play, one at a time
  // ---------------------------------------------------------------------------

  /** Player 1's turn `t1`, on the cards after the first six, decides how the game goes on. */
  lemma FirstTurnThen(order: seq<Card>, choices: seq<bool>, t1: PlayerTurnResult)
    requires |order| >= 6 && t1 == PlayerTurn(order[6..], [order[0], order[1]], choices)
    ensures 6 + t1.draws <= |order| && t1.used <= |choices|
    ensures var cut1 := 6 + t1.draws;
            && (t1.end.Aborted? ==> Play(order, choices) == Table(cut1, cut1, t1.used, TurnAborted(t1.end.why)))
            && (!t1.end.Aborted? ==> Play(order, choices) == SecondTurn(order, choices, cut1, t1.used))
  {
  }

  /** Player 2's turn `t2`, on the cards after cut1 and the answers after read, ends the turns. */
  lemma SecondTurnThen(order: seq<Card>, choices: seq<bool>, cut1: nat, read: nat, t2: PlayerTurnResult)
    requires 6 <= cut1 <= |order| && read <= |choices|
    requires t2 == PlayerTurn(order[cut1..], [order[2], order[3]], choices[read..])
    ensures cut1 + t2.draws <= |order| && read + t2.used <= |choices|
    ensures SecondTurn(order, choices, cut1, read) ==
              Table(cut1, cut1 + t2.draws, read + t2.used, if t2.end.Aborted? then TurnAborted(t2.end.why) else TurnsDone)
    ensures Hand1(order, SecondTurn(order, choices, cut1, read)) == [order[0], order[1]] + order[6..cut1]
    ensures Hand2(order, SecondTurn(order, choices, cut1, read)) == [order[2], order[3]] + order[cut1..][..t2.draws]
  {
  }

  /**
   * When some player scores 21 or less, the dealer plays from the card
   * after the players' last: its hand is its two cards and the ones it
   * drew, and the result is determineWinner's unless it ran out of cards.
   */
  lemma DealerPlayedWith(order: seq<Card>, t: Table, s1: int, s2: int, t3: DealerTurnResult)
    requires Cuts(order, t) && t.ending == TurnsDone
    requires s1 == Score(Hand1(order, t)) && s2 == Score(Hand2(order, t)) && (s1 <= 21 || s2 <= 21)
    requires t3 == DealerTurn(order[t.cut2..], [order[4], order[5]])
    ensures Dealt(order, t) == t.cut2 + t3.draws
    ensures DealerHand(order, t) == [order[4], order[5]] + order[t.cut2..][..t3.draws]
    ensures Result(order, t) ==
              if t3.finished then Decided(DetermineWinner(s1, s2, Score([order[4], order[5]] + order[t.cut2..][..t3.draws])))
              else Crashed(DeckExhausted)
  {
    assert DealerRun(order, t) == t3;
    assert order[t.cut2..][..t3.draws] == order[t.cut2..t.cut2 + t3.draws];
  }

  /** When both players bust, the dealer draws nothing and determineWinner decides on its two cards. */
  lemma DealerSkippedWith(order: seq<Card>, t: Table, s1: int, s2: int)
    requires Cuts(order, t) && t.ending == TurnsDone
    requires s1 == Score(Hand1(order, t)) && s2 == Score(Hand2(order, t)) && s1 > 21 && s2 > 21
    ensures Dealt(order, t) == t.cut2
    ensures DealerHand(order, t) == [order[4], order[5]]
    ensures Result(order, t) == Decided(DetermineWinner(s1, s2, Score([order[4], order[5]])))
  {
    assert DealerRun(order, t) == DealerTurnResult(true, 0);
    assert order[t.cut2..t.cut2] == [];
  }

  /** When a player's turn ends the game by an exception, the dealer deals nothing and the exception is the result. */
  lemma AbortedWith(order: seq<Card>, t: Table)
    requires Cuts(order, t) && t.ending.TurnAborted?
    ensures Dealt(order, t) == t.cut2
    ensures DealerHand(order, t) == [order[4], order[5]]
    ensures Result(order, t) == Crashed(t.ending.why)
  {
    assert DealerRun(order, t) == DealerTurnResult(true, 0);
    assert order[t.cut2..t.cut2] == [];
  }

  // ---------------------------------------------------------------------------
  // How a game ends
  // ---------------------------------------------------------------------------

  /**
   * The guard of main around the dealer's turn, as seen at the end of a
   * decided game: if a player scores 21 or less the dealer drew only while
   * under 17 and ends at 17 or more; if both players bust the dealer draws
   * nothing and wins.
   */
  predicate DealerRule(order: seq<Card>, t: Table)
    requires Cuts(order, t)
  {
    var s1, s2, dealer := Score(Hand1(order, t)), Score(Hand2(order, t)), DealerHand(order, t);
    && (s1 <= 21 || s2 <= 21 ==> ScoredBelow(dealer, 2, 17) && Score(dealer) >= 17)
    && (s1 > 21 && s2 > 21 ==> Dealt(order, t) == t.cut2 && Result(order, t) == Decided(BothBustDealerWins))
  }

  /**
   * How a game can end: decided with the dealer having kept its rule, or
   * stopped by an exception once every answer has been read or every card
   * dealt.
   */
  predicate Settled(order: seq<Card>, choices: seq<bool>, t: Table)
    requires Cuts(order, t)
  {
    var r := Result(order, t);
    && (r.Decided? ==> DealerRule(order, t))
    && (r == Crashed(InputExhausted) ==> t.read == |choices|)
    && (r == Crashed(DeckExhausted) ==> Dealt(order, t) == |order|)
  }

  /** When a player scores 21 or less the dealer draws while under 17; the game is decided unless the deck runs out. */
  lemma DealerTurnSettles(order: seq<Card>, choices: seq<bool>, t: Table)
    requires Cuts(order, t) && t.ending == TurnsDone && t.read <= |choices|
    requires Score(Hand1(order, t)) <= 21 || Score(Hand2(order, t)) <= 21
    ensures Settled(order, choices, t)
    ensures Result(order, t).Crashed? ==> Result(order, t) == Crashed(DeckExhausted)
  {
    var s1, s2 := Score(Hand1(order, t)), Score(Hand2(order, t));
    var t3 := DealerTurn(order[t.cut2..], [order[4], order[5]]);
    DealerPlayedWith(order, t, s1, s2, t3);
    DealerTurnStopsAt17(order[t.cut2..], [order[4], order[5]]);
  }

  /** When both players bust the dealer does not play and wins. */
  lemma BothBustSettles(order: seq<Card>, choices: seq<bool>, t: Table)
    requires Cuts(order, t) && t.ending == TurnsDone && t.read <= |choices|
    requires Score(Hand1(order, t)) > 21 && Score(Hand2(order, t)) > 21
    ensures Settled(order, choices, t)
    ensures Result(order, t).Crashed? ==> Result(order, t) == Crashed(DeckExhausted)
  {
    assert DealerRun(order, t) == DealerTurnResult(true, 0);
    assert DealerHand(order, t) == [order[4], order[5]] + [];
    BothBustMeansDealerWins(Score(Hand1(order, t)), Score(Hand2(order, t)), Score([order[4], order[5]]));
  }

  /** Once both turns have ended normally the game is decided unless the dealer's turn runs out of cards. */
  lemma ShowdownSettles(order: seq<Card>, choices: seq<bool>, t: Table)
    requires Cuts(order, t) && t.ending == TurnsDone && t.read <= |choices|
    ensures Settled(order, choices, t)
    ensures Result(order, t).Crashed? ==> Result(order, t) == Crashed(DeckExhausted)
  {
    if Score(Hand1(order, t)) <= 21 || Score(Hand2(order, t)) <= 21 {
      DealerTurnSettles(order, choices, t);
    } else {
      BothBustSettles(order, choices, t);
    }
  }

  /** After player 2's turn the game is settled. */
  lemma SecondTurnSettles(order: seq<Card>, choices: seq<bool>, cut1: nat, read: nat)
    requires 6 <= cut1 <= |order| && read <= |choices|
    ensures Settled(order, choices, SecondTurn(order, choices, cut1, read))
  {
    var t2 := PlayerTurn(order[cut1..], [order[2], order[3]], choices[read..]);
    SecondTurnThen(order, choices, cut1, read, t2);
    PlayerTurnAborts(order[cut1..], [order[2], order[3]], choices[read..]);
    if !t2.end.Aborted? {
      ShowdownSettles(order, choices, SecondTurn(order, choices, cut1, read));
    }
  }

  /**
   * Every game is settled: decided by determineWinner on the final scores
   * with the dealer having kept its rule, or stopped by an exception once
   * every answer has been read or every card dealt.
   */
  lemma PlaySettles(order: seq<Card>, choices: seq<bool>)
    requires |order| >= 6
    ensures Settled(order, choices, Play(order, choices))
  {
    var t1 := PlayerTurn(order[6..], [order[0], order[1]], choices);
    FirstTurnThen(order, choices, t1);
    PlayerTurnAborts(order[6..], [order[0], order[1]], choices);
    if !t1.end.Aborted? {
      SecondTurnSettles(order, choices, 6 + t1.draws, t1.used);
    }
  }

  // ---------------------------------------------------------------------------
  // What a game promises
  // ---------------------------------------------------------------------------

  /**
   * The hands hold the cards in the order of the deal: two each to player
   * 1, player 2 and the dealer, then the hits of player 1, of player 2 and
   * the dealer's draws.
   */
  lemma DealtInOrder(order: seq<Card>, t: Table)
    requires Cuts(order, t)
    ensures var h1, h2, hD := Hand1(order, t), Hand2(order, t), DealerHand(order, t);
            && |h1| + |h2| + |hD| == Dealt(order, t)
            && order[..Dealt(order, t)] == h1[..2] + h2[..2] + hD[..2] + h1[2..] + h2[2..] + hD[2..]
  {
    var n := Dealt(order, t);
    HandTails(order, t);
    PrefixSplit(order, 2, 4);
    PrefixSplit(order, 4, 6);
    PrefixSplit(order, 6, t.cut1);
    PrefixSplit(order, t.cut1, t.cut2);
    PrefixSplit(order, t.cut2, n);
  }

  /** After its first two cards each hand holds its stretch of the order. */
  lemma HandTails(order: seq<Card>, t: Table)
    requires Cuts(order, t)
    ensures Hand1(order, t)[2..] == order[6..t.cut1]
    ensures Hand2(order, t)[2..] == order[t.cut1..t.cut2]
    ensures DealerHand(order, t)[2..] == order[t.cut2..Dealt(order, t)]
  {
  }

  /** Together the three hands hold exactly the cards dealt, each as often as it was dealt. */
  lemma HandsConserveCards(order: seq<Card>, t: Table)
    requires Cuts(order, t)
    ensures multiset(Hand1(order, t)) + multiset(Hand2(order, t)) + multiset(DealerHand(order, t))
            == multiset(order[..Dealt(order, t)])
  {
    var h1, h2, hD := Hand1(order, t), Hand2(order, t), DealerHand(order, t);
    DealtInOrder(order, t);
    assert h1 == h1[..2] + h1[2..] && h2 == h2[..2] + h2[2..] && hD == hD[..2] + hD[2..];
    calc {
      multiset(order[..Dealt(order, t)]);
      multiset(h1[..2]) + multiset(h2[..2]) + multiset(hD[..2]) + multiset(h1[2..]) + multiset(h2[2..]) + multiset(hD[2..]);
      multiset(h1) + multiset(h2) + multiset(hD);
    }
  }

  /** A decided game always prints one of the messages: determineWinner's cascade never falls through. */
  lemma PlayAlwaysReports(order: seq<Card>, choices: seq<bool>)
    requires |order| >= 6
    ensures var t := Play(order, choices);
            Result(order, t).Decided? ==> Result(order, t).verdict != NoMessage && !Result(order, t).verdict.DealerWins?
  {
    var t := Play(order, choices);
    ReachableBranches(Score(Hand1(order, t)), Score(Hand2(order, t)), Score(DealerHand(order, t)));
  }
}
