/**
 * The two turn loops as functions of what they start from: the hand held,
 * the order in which the deck would be dealt (see Draws.Order) and, for a
 * player, the answers to "Hit or Stay?" (true for "h"). The methods of the
 * game are proved to compute them.
 */
module Turns {
  import opened Cards
  import opened Scoring

  /** Why a game stops early: the input ran out (nextLine) or the deck did (nextInt(0)). */
  datatype Abort = InputExhausted | DeckExhausted

  /**
   * How a player's turn ends. Stood: the loop is left normally, by a "stay"
   * or, when the hand already scores over 21 at the loop test, without any
   * question; the model keeps the code's single exit for both. Busted: a hit
   * takes the score over 21. Aborted: an exception ends the game.
   */
  datatype TurnEnd = Stood | Busted | Aborted(why: Abort)

  /** A player's turn: how it ended, how many answers it read and how many cards it dealt. */
  datatype PlayerTurnResult = PlayerTurnResult(end: TurnEnd, used: nat, draws: nat)

  /** The dealer's turn: whether the loop was left normally and how many cards it dealt. */
  datatype DealerTurnResult = DealerTurnResult(finished: bool, draws: nat)

  /**
   * playPlayerTurn from its loop test, after `draws` hits each answered by
   * one of the first `draws` choices: the hand is `held` and the first
   * `draws` cards. The loop runs while the score is 21 or less; a "stay"
   * leaves it, a "hit" deals a card and a score over 21 then ends the turn.
   */
  function PlayerTurnFrom(cards: seq<Card>, held: seq<Card>, choices: seq<bool>, draws: nat): (r: PlayerTurnResult)
    requires draws <= |cards| && draws <= |choices|
    ensures draws <= r.draws <= r.used <= |choices| && r.draws <= |cards|
    decreases |choices| - draws
  {
    // The loop test fails before any question: the turn ends as after a "stay".
    if Score(held + cards[..draws]) > 21 then PlayerTurnResult(Stood, draws, draws)
    else if draws == |choices| then PlayerTurnResult(Aborted(InputExhausted), draws, draws)
    else if !choices[draws] then PlayerTurnResult(Stood, draws + 1, draws)
    else if draws == |cards| then PlayerTurnResult(Aborted(DeckExhausted), draws + 1, draws)
    else if Score(held + cards[..draws + 1]) > 21 then PlayerTurnResult(Busted, draws + 1, draws + 1)
    else PlayerTurnFrom(cards, held, choices, draws + 1)
  }

  /** playPlayerTurn on a player holding `held`, the deck to be dealt in the order `cards`. */
  function PlayerTurn(cards: seq<Card>, held: seq<Card>, choices: seq<bool>): (r: PlayerTurnResult)
    ensures r.draws <= r.used <= |choices| && r.draws <= |cards|
  {
    PlayerTurnFrom(cards, held, choices, 0)
  }

  /** playDealerTurn from its loop test after `draws` cards: the dealer draws while the score is below 17. */
  function DealerTurnFrom(cards: seq<Card>, held: seq<Card>, draws: nat): (r: DealerTurnResult)
    requires draws <= |cards|
    ensures draws <= r.draws <= |cards|
    decreases |cards| - draws
  {
    if Score(held + cards[..draws]) >= 17 then DealerTurnResult(true, draws)
    else if draws == |cards| then DealerTurnResult(false, draws)
    else DealerTurnFrom(cards, held, draws + 1)
  }

  /** playDealerTurn on a dealer holding `held`. */
  function DealerTurn(cards: seq<Card>, held: seq<Card>): (r: DealerTurnResult)
    ensures r.draws <= |cards|
  {
    DealerTurnFrom(cards, held, 0)
  }

  /** One more card dealt extends the hand by the next card of the order. */
  lemma HandStep(cards: seq<Card>, held: seq<Card>, n: nat)
    requires n < |cards|
    ensures held + cards[..n + 1] == (held + cards[..n]) + [cards[n]]
  {
    assert cards[..n + 1] == cards[..n] + [cards[n]];
  }

  // ---------------------------------------------------------------------------
  // What a player's turn promises
  // ---------------------------------------------------------------------------

  /** From any loop test reached after hits only, the player's loop deals cards only on hits. */
  lemma {:induction false} PlayerTurnFromHits(cards: seq<Card>, held: seq<Card>, choices: seq<bool>, draws: nat)
    requires draws <= |cards| && draws <= |choices|
    requires forall k :: 0 <= k < draws ==> choices[k]
    ensures var r := PlayerTurnFrom(cards, held, choices, draws);
            forall k :: 0 <= k < r.draws ==> choices[k]
    decreases |choices| - draws
  {
    if Score(held + cards[..draws]) <= 21 && draws < |choices| && choices[draws] && draws < |cards|
       && Score(held + cards[..draws + 1]) <= 21 {
      PlayerTurnFromHits(cards, held, choices, draws + 1);
    }
  }

  /** From any loop test reached with every earlier hand under 22, the player's loop deals only to hands under 22. */
  lemma {:induction false} PlayerTurnFromUnder22(cards: seq<Card>, held: seq<Card>, choices: seq<bool>, draws: nat)
    requires draws <= |cards| && draws <= |choices|
    requires ScoredBelow(held + cards[..draws], |held|, 22)
    ensures var r := PlayerTurnFrom(cards, held, choices, draws);
            ScoredBelow(held + cards[..r.draws], |held|, 22)
    decreases |choices| - draws
  {
    var hand := held + cards[..draws];
    if Score(hand) <= 21 && draws < |choices| && choices[draws] && draws < |cards| {
      HandStep(cards, held, draws);
      ScoredBelowSnoc(hand, |held|, 22, cards[draws]);
      if Score(held + cards[..draws + 1]) <= 21 {
        PlayerTurnFromUnder22(cards, held, choices, draws + 1);
      }
    }
  }

  /** How the player's loop ends, from any loop test reached with the loop's invariant. */
  lemma {:induction false} PlayerTurnFromEnds(cards: seq<Card>, held: seq<Card>, choices: seq<bool>, draws: nat)
    requires draws <= |cards| && draws <= |choices|
    requires draws > 0 ==> Score(held + cards[..draws]) <= 21
    ensures var r := PlayerTurnFrom(cards, held, choices, draws);
            var hand := held + cards[..r.draws];
            && (r.end == Busted ==> r.draws > 0 && r.used == r.draws && Score(hand) > 21)
            && (r.end == Stood ==>
                  (r.used == r.draws + 1 && !choices[r.draws] && Score(hand) <= 21) ||
                  (r.used == 0 && r.draws == 0 && Score(hand) > 21))
            && (r.end == Aborted(InputExhausted) ==> r.used == r.draws == |choices| && Score(hand) <= 21)
            && (r.end == Aborted(DeckExhausted) ==>
                  r.draws == |cards| && r.used == r.draws + 1 && choices[r.draws] && Score(hand) <= 21)
    decreases |choices| - draws
  {
    if Score(held + cards[..draws]) <= 21 && draws < |choices| && choices[draws] && draws < |cards|
       && Score(held + cards[..draws + 1]) <= 21 {
      PlayerTurnFromEnds(cards, held, choices, draws + 1);
    }
  }

  /** Every card a player is dealt answers a "hit": the first `draws` answers read were all hits. */
  lemma PlayerTurnHitsOnly(cards: seq<Card>, held: seq<Card>, choices: seq<bool>)
    ensures var r := PlayerTurn(cards, held, choices);
            forall k :: 0 <= k < r.draws ==> choices[k]
  {
    PlayerTurnFromHits(cards, held, choices, 0);
  }

  /** A player is dealt a card only while the hand scores 21 or less. */
  lemma PlayerTurnHitsUnder22(cards: seq<Card>, held: seq<Card>, choices: seq<bool>)
    ensures var r := PlayerTurn(cards, held, choices);
            ScoredBelow(held + cards[..r.draws], |held|, 22)
  {
    assert held + cards[..0] == held;
    PlayerTurnFromUnder22(cards, held, choices, 0);
  }

  /**
   * How each end of the turn comes about: a bust right after a hit, a
   * "stay" (or a hand over 21 from the start), the input running out at a
   * question, or a "hit" with no card left.
   */
  lemma PlayerTurnEnds(cards: seq<Card>, held: seq<Card>, choices: seq<bool>)
    ensures var r := PlayerTurn(cards, held, choices);
            var hand := held + cards[..r.draws];
            && (r.end == Busted ==> r.draws > 0 && r.used == r.draws && Score(hand) > 21)
            && (r.end == Stood ==>
                  (r.used == r.draws + 1 && !choices[r.draws] && Score(hand) <= 21) ||
                  (r.used == 0 && r.draws == 0 && Score(held) > 21))
            && (r.end == Aborted(InputExhausted) ==> r.used == r.draws == |choices| && Score(hand) <= 21)
            && (r.end == Aborted(DeckExhausted) ==>
                  r.draws == |cards| && r.used == r.draws + 1 && choices[r.draws] && Score(hand) <= 21)
  {
    assert held + cards[..0] == held;
    PlayerTurnFromEnds(cards, held, choices, 0);
  }

  /** A turn stopped by an exception has read every answer, or has dealt every card. */
  lemma PlayerTurnAborts(cards: seq<Card>, held: seq<Card>, choices: seq<bool>)
    ensures var r := PlayerTurn(cards, held, choices);
            && (r.end == Aborted(InputExhausted) ==> r.used == |choices|)
            && (r.end == Aborted(DeckExhausted) ==> r.draws == |cards|)
  {
    PlayerTurnEnds(cards, held, choices);
  }

  // ---------------------------------------------------------------------------
  // What the dealer's turn promises
  // ---------------------------------------------------------------------------

  lemma {:induction false} DealerTurnFromFacts(cards: seq<Card>, held: seq<Card>, draws: nat)
    requires draws <= |cards|
    requires ScoredBelow(held + cards[..draws], |held|, 17)
    ensures var r := DealerTurnFrom(cards, held, draws);
            var hand := held + cards[..r.draws];
            && ScoredBelow(hand, |held|, 17)
            && (r.finished <==> Score(hand) >= 17)
            && (!r.finished ==> r.draws == |cards|)
    decreases |cards| - draws
  {
    var hand := held + cards[..draws];
    if Score(hand) < 17 && draws < |cards| {
      HandStep(cards, held, draws);
      ScoredBelowSnoc(hand, |held|, 17, cards[draws]);
      DealerTurnFromFacts(cards, held, draws + 1);
    }
  }

  /**
   * The dealer draws only while below 17 and stops at 17 or more; the turn
   * fails to finish only when the deck runs out first, and a dealer already
   * at 17 or more draws nothing.
   */
  lemma DealerTurnStopsAt17(cards: seq<Card>, held: seq<Card>)
    ensures var r := DealerTurn(cards, held);
            var hand := held + cards[..r.draws];
            && ScoredBelow(hand, |held|, 17)
            && (r.finished <==> Score(hand) >= 17)
            && (!r.finished ==> r.draws == |cards|)
            && (Score(held) >= 17 ==> r.finished && r.draws == 0)
  {
    assert held + cards[..0] == held;
    DealerTurnFromFacts(cards, held, 0);
  }
}
