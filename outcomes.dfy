/**
 * determineWinner: the cascade of tests on the final scores of the two
 * players and the dealer, followed test by test as it is written.
 */
module Outcomes {

  datatype Seat = Player1 | Player2

  /** The message the game prints; NoMessage when every test of the cascade fails. */
  datatype Verdict =
    | Tie                        // "It's a tie!"
    | BothBustDealerWins         // "Both players bust! Dealer wins."
    | DealerBustsBothWin         // "Dealer busts! Both players win."
    | DealerBustsWinner(seat: Seat)  // "Dealer busts! <name> wins."
    | Wins(seat: Seat)           // "<name> wins!"
    | DealerWins                 // "Dealer wins."
    | LosesToDealer(seat: Seat)  // "<name> loses to dealer."
    | NoMessage

  /** Which test of the cascade is the first to succeed. */
  datatype Branch =
    | TieTest               // the first if, comparing p1 with p2 and p2 with the dealer
    | BothBust
    | DealerBustBothIn
    | DealerBustPlayer1In
    | DealerBustPlayer2In
    | DealerBustNoneIn      // the dealer-bust block when none of its three tests succeeds
    | Player1Higher
    | Player2Higher
    | DealerAboveBoth
    | AllEqual
    | DealerAboveBothAgain  // the same test as DealerAboveBoth, written a second time
    | Player1BelowDealer
    | Player2BelowDealer
    | NoneMatched

  /** The cascade on the final scores p1, p2 and d. */
  function Resolve(p1: int, p2: int, d: int): Branch {
    if (p1 <= 21 && p1 == p2) || (p2 <= 21 && p2 == d) then TieTest
    else if p1 > 21 && p2 > 21 then BothBust
    else if d > 21 then
      if p1 <= 21 && p2 <= 21 then DealerBustBothIn
      else if p1 <= 21 then DealerBustPlayer1In
      else if p2 <= 21 then DealerBustPlayer2In
      else DealerBustNoneIn
    else if p1 <= 21 && (p1 > p2 || p2 > 21) then Player1Higher
    else if p2 <= 21 && (p2 > p1 || p1 > 21) then Player2Higher
    else if d > p1 && d > p2 then DealerAboveBoth
    else if d == p1 && d == p2 then AllEqual
    else if d > p1 && d > p2 then DealerAboveBothAgain
    else if d > p1 && d <= 21 && d <= p2 then Player1BelowDealer
    else if d > p2 && d <= 21 && d <= p1 then Player2BelowDealer
    else NoneMatched
  }

  /** The message printed by the println of each branch. */
  function Message(b: Branch): Verdict {
    match b
    case TieTest => Tie
    case BothBust => BothBustDealerWins
    case DealerBustBothIn => DealerBustsBothWin
    case DealerBustPlayer1In => DealerBustsWinner(Player1)
    case DealerBustPlayer2In => DealerBustsWinner(Player2)
    case DealerBustNoneIn => NoMessage
    case Player1Higher => Wins(Player1)
    case Player2Higher => Wins(Player2)
    case DealerAboveBoth => DealerWins
    case AllEqual => Tie
    case DealerAboveBothAgain => DealerWins
    case Player1BelowDealer => LosesToDealer(Player1)
    case Player2BelowDealer => LosesToDealer(Player2)
    case NoneMatched => NoMessage
  }

  /** determineWinner: the message printed for final scores p1, p2 and d. */
  function DetermineWinner(p1: int, p2: int, d: int): Verdict {
    Message(Resolve(p1, p2, d))
  }

  /** A score is bust when it exceeds 21. */
  predicate Bust(score: int) {
    score > 21
  }

  // ---------------------------------------------------------------------------
  // Which branches can be taken
  // ---------------------------------------------------------------------------

  /**
   * Only the first seven branches are ever taken: the cascade always prints
   * exactly one message, and the six tests after the two "wins!" lines can
   * never succeed.
   */
  lemma ReachableBranches(p1: int, p2: int, d: int)
    ensures Resolve(p1, p2, d) in {TieTest, BothBust, DealerBustBothIn, DealerBustPlayer1In,
                                   DealerBustPlayer2In, Player1Higher, Player2Higher}
    ensures DetermineWinner(p1, p2, d) != NoMessage
    ensures !DetermineWinner(p1, p2, d).DealerWins?
    ensures !DetermineWinner(p1, p2, d).LosesToDealer?
  {
  }

  /** Each of the seven branches is taken for some scores. */
  lemma EachReachableBranchIsTaken()
    ensures Resolve(18, 18, 20) == TieTest
    ensures Resolve(22, 23, 17) == BothBust
    ensures Resolve(18, 20, 22) == DealerBustBothIn
    ensures Resolve(18, 22, 23) == DealerBustPlayer1In
    ensures Resolve(22, 18, 23) == DealerBustPlayer2In
    ensures Resolve(20, 18, 19) == Player1Higher
    ensures Resolve(19, 21, 18) == Player2Higher
  {
  }

  // ---------------------------------------------------------------------------
  // What each message means, in both directions
  // ---------------------------------------------------------------------------

  /** "It's a tie!" is printed exactly when the first test succeeds. */
  lemma TieExactly(p1: int, p2: int, d: int)
    ensures DetermineWinner(p1, p2, d) == Tie <==> (!Bust(p1) && p1 == p2) || (!Bust(p2) && p2 == d)
  {
  }

  /**
   * When both players are bust the dealer wins whatever the dealer's score;
   * the tie test cannot fire then, since each of its halves needs a player
   * at 21 or below.
   */
  lemma BothBustMeansDealerWins(p1: int, p2: int, d: int)
    ensures DetermineWinner(p1, p2, d) == BothBustDealerWins <==> Bust(p1) && Bust(p2)
    ensures Bust(p1) && Bust(p2) ==> Resolve(p1, p2, d) == BothBust
  {
  }

  /**
   * With a bust dealer, no tie and not both players bust, exactly the players
   * who are not bust are declared winners.
   */
  lemma DealerBustWinners(p1: int, p2: int, d: int)
    requires Bust(d)
    requires !((!Bust(p1) && p1 == p2) || (!Bust(p2) && p2 == d))
    requires !(Bust(p1) && Bust(p2))
    ensures DetermineWinner(p1, p2, d) ==
              if !Bust(p1) && !Bust(p2) then DealerBustsBothWin
              else if !Bust(p1) then DealerBustsWinner(Player1)
              else DealerBustsWinner(Player2)
  {
  }

  /**
   * With a dealer at 21 or below, no tie and not both players bust, the player
   * who is not bust and scores higher than the other (or whose opponent is
   * bust) is named winner; the dealer's score is not consulted.
   */
  lemma HigherPlayerWins(p1: int, p2: int, d: int)
    requires !Bust(d)
    requires !((!Bust(p1) && p1 == p2) || (!Bust(p2) && p2 == d))
    requires !(Bust(p1) && Bust(p2))
    ensures DetermineWinner(p1, p2, d) == Wins(Player1) <==> !Bust(p1) && (p1 > p2 || Bust(p2))
    ensures DetermineWinner(p1, p2, d) == Wins(Player2) <==> !Bust(p2) && (p2 > p1 || Bust(p1))
  {
  }

  /** Some player is named winner (alone or with the other) exactly when the verdict is not a tie and not both bust. */
  lemma SomePlayerWins(p1: int, p2: int, d: int)
    ensures DetermineWinner(p1, p2, d) !in {Tie, BothBustDealerWins} <==>
              !((!Bust(p1) && p1 == p2) || (!Bust(p2) && p2 == d)) && !(Bust(p1) && Bust(p2))
  {
  }

  // ---------------------------------------------------------------------------
  // Behaviour on particular scores
  // ---------------------------------------------------------------------------

  /**
   * Scores where the cascade as written departs from the usual rules: a tie
   * between two players is declared against a bust dealer; a player tying
   * the dealer makes a tie although the other player scores more; a player
   * below the dealer is named winner.
   */
  lemma NotableVerdicts()
    ensures DetermineWinner(20, 18, 19) == Wins(Player1)
    ensures DetermineWinner(22, 19, 17) == Wins(Player2)
    ensures DetermineWinner(19, 21, 19) == Wins(Player2)
    ensures DetermineWinner(18, 18, 22) == Tie
    ensures DetermineWinner(21, 19, 19) == Tie
    ensures DetermineWinner(18, 17, 20) == Wins(Player1)
    ensures DetermineWinner(19, 22, 19) == Wins(Player1)
  {
  }
}
