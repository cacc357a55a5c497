# Blackjack, modelled and verified in Dafny

This project models `Blackjack.java`, a console Blackjack game. Two players play against a dealer with one 52-card deck. The model covers:

- how a hand is scored, with Aces counted 11 or 1;
- how the deck is built from the rank, suit and value tables;
- how a card is dealt at a random index;
- the players' hit/stay loop and the dealer's draw-to-17 loop;
- the guard in `main` that skips the dealer when both players are bust;
- the cascade of tests in `determineWinner`, followed exactly as it is written.

Nothing here runs the game. Two parameters stand in for its inputs:

- `rolls` holds the results of `RANDOM.nextInt(deck.size())`, one per deal. The predicate `Fits` keeps each roll below the deck size at that deal.
- `choices` holds the "Hit or Stay?" answers, `true` for `h`.

With both fixed, a game is deterministic. The model describes it twice: once as functions and once as methods that are proved to compute those functions.

Modules:

- `Cards`: the `Card` datatype and the `RANKS`, `SUITS` and `VALUES` tables. Also `getIndex`, together with the `Integer.parseInt` and 32-bit arithmetic it relies on, and `FullDeck`, the deck `initializeDeck` builds.
- `Scoring`: `Score`, the specification of `calculateHandValue`, and its properties.
- `Outcomes`: the `determineWinner` cascade as a function from three scores to the branch taken (`Resolve`) and the message printed (`Verdict`).
- `Draws`: scripted random deals. It gives the deck after `n` deals (`Remaining`), the cards taken (`Drawn`) and the order in which a script deals the whole deck (`Order`).
- `Players`: class `Player`, which holds a name and a mutable hand, with `AddCard` and `CalculateHandValue`.
- `Turns`: the two turn loops as functions of the held hand, the deal order and the answers.
- `Rounds`: `main` after the names are read, as a function (`Play`, `Result`), and its properties.
- `Game`: class `Blackjack`, which holds the mutable deck and the three players. Its invariant `Valid` says the seats hold three different players and every card of the game is in the deck or in a hand, as often as it belongs to the game. The cards of the game are the ghost field `allCards`: none after the constructor, and the full deck plus the hands once `InitializeDeck` has run. Every method from `Deal` to `PlayShowdown` requires `Valid` and keeps it for the same cards. The class has the methods `InitializeDeck`, `Deal`, `DealInitialCards`, `PlayPlayerTurn`, `PlayDealerTurn` and the steps of `main`. `PlayGame` is the whole of `main`.

The model follows the code as written, including these behaviours that are easy to miss:

- With scores 18, 18 and a bust dealer (22), the game prints "It's a tie!" rather than naming both players winners. See `NotableVerdicts`.
- A player below the dealer can be named winner. With scores 18, 17 and 20, player 1 wins.
- The "Dealer wins.", three-way tie and "loses to dealer" branches can never be taken. See `ReachableBranches`.
- A bust hand scores its total with every Ace counted as 1, not the raw sum with Aces as 11. See `ScoreIsBest`.
- Running out of answers ends the game with an exception, the result `Crashed(InputExhausted)`. The loops also handle an empty deck, as `Crashed(DeckExhausted)`. A game on the full deck never gets there. A player's hand holds at most 12 cards, since 11 of the lowest cards already total 21. The dealer's hand holds at most 10, since it stops drawing at 17 and its 10 lowest possible cards already total 18. So at most 34 of the 52 cards are ever dealt. The model keeps that path but does not prove this bound.

## Model

| member | source | states |
|---|---|---|
| Cards.Wrap32 | Blackjack.java:136 | Java `int` subtraction wraps around: the result lies in the 32-bit range, is congruent to the exact value modulo 2^32, and equals it when the exact value fits |
| Cards.ParseInt | Blackjack.java:136 | `Integer.parseInt`: the empty string, a lone sign and any other character than a decimal digit after an optional leading sign give no result; a digit string, with or without `+` or `-`, parses to its value, negated after `-`, exactly when that value is a 32-bit int |
| Cards.GetIndex | Blackjack.java:125-138 | `"Jack"`, `"Queen"`, `"King"` and `"Ace"` map to 9, 10, 11 and 12; any other rank yields no index exactly when it does not parse, and otherwise its parsed value minus 2 with 32-bit wrap-around |
| Cards.GetIndexOfRank | Blackjack.java:125-138 | `getIndex` inverts `RANKS`: the rank at position i maps back to i, so `VALUES[getIndex(rank)]` is always in bounds |
| Cards.FullDeck | Blackjack.java:115-123 | the deck `initializeDeck` builds has 52 cards |
| Cards.FullDeckAt | Blackjack.java:115-123 | the card of rank r and suit s, with value `VALUES[r]`, sits at position 4r + s: ranks in table order, suits within a rank |
| Cards.FullDeckOnePerPair | Blackjack.java:115-123 | position k holds rank r and suit s exactly when k = 4r + s: exactly one card per (rank, suit) pair |
| Cards.FullDeckDistinct | Blackjack.java:115-123 | no two positions of the full deck hold the same card |
| Cards.FullDeckValues | Blackjack.java:76-78 | in the full deck the value is 11 exactly for the Aces, and every value lies in 2..11 |
| Cards.FullDeckAtMostOnce | Blackjack.java:115-123 | every card occurs at most once in the full deck |
| Cards.DistinctAtMostOnce | Blackjack.java:115-123 | a sequence without repeated elements holds each card at most once as a multiset |
| Scoring.Score | Blackjack.java:47-61 | the value `calculateHandValue` returns, in closed form: the total with just enough Aces counted as 1; its properties are stated by `Demotions`, `ScoreIsBest` and `BustIffAllAcesLow`, and `Players.Player.CalculateHandValue` is proved to compute it |
| Scoring.Demotions | Blackjack.java:56-59 | the number of Aces the demotion loop counts as 1 is at most the Ace count; it is the least number that brings the total to 21 or below, or every Ace if none does |
| Scoring.DemotionsUnique | Blackjack.java:56-59 | any count meeting that characterisation is the one `Demotions` picks |
| Scoring.ScoreIsBest | Blackjack.java:47-61 | no total reachable by counting some Aces as 1 and staying at 21 or below beats the score; the score is 21 or below whenever such a total exists; a bust score counts every Ace as 1 |
| Scoring.BustIffAllAcesLow | Blackjack.java:47-61 | a hand is bust exactly when it is over 21 even with every Ace counted as 1 |
| Scoring.TotalPermutation | Blackjack.java:50-55 | the sum of the values depends only on their multiset |
| Scoring.AcesIsMultiplicity | Blackjack.java:50-55 | the Ace count is the number of 11s among the values |
| Scoring.ScoreDependsOnValuesOnly | Blackjack.java:50-59 | two hands with the same multiset of values have the same score |
| Scoring.ValuesPermutation | Blackjack.java:50-55 | reordering the cards reorders their values |
| Scoring.ScoreOfReorderedHand | Blackjack.java:47-61 | reordering a hand does not change its score |
| Scoring.ValuesSnoc | Blackjack.java:50-55 | a card added at the end adds its value to the sum and, if it is 11, one to the Ace count |
| Scoring.ScoredBelowSnoc | Blackjack.java:163-166 | once a hand below a limit gets a card, every earlier hand from a given length on still scored below the limit |
| Scoring.ScoreAceAceNine | Blackjack.java:47-61 | Ace, Ace and 9 scores 21 |
| Scoring.ScoreKingQueen | Blackjack.java:47-61 | King and Queen scores 20 |
| Scoring.ScoreAceKingFive | Blackjack.java:47-61 | Ace, King and 5 scores 16 |
| Outcomes.Resolve | Blackjack.java:197-224 | the tests of `determineWinner` in their written order, one `Branch` per `println` and one for each way to print nothing; see `ReachableBranches`, `TieExactly`, `BothBustMeansDealerWins`, `DealerBustWinners` and `HigherPlayerWins` |
| Outcomes.Message | Blackjack.java:198-223 | the message each branch prints, with the dealer-bust branch that matches no player and the final fall-through printing nothing; see `NotableVerdicts` |
| Outcomes.DetermineWinner | Blackjack.java:192-226 | `determineWinner` on the three final scores: the message of the branch `Resolve` takes; see `SomePlayerWins`, `NotableVerdicts` and `Rounds.PlayAlwaysReports` |
| Outcomes.ReachableBranches | Blackjack.java:197-224 | only the first seven branches are ever taken: every score triple prints a message, and never "Dealer wins." or "loses to dealer" |
| Outcomes.EachReachableBranchIsTaken | Blackjack.java:197-213 | each of those seven branches is taken for some scores |
| Outcomes.TieExactly | Blackjack.java:197-198 | "It's a tie!" is printed exactly when one player at 21 or below equals the other player, or player 2 at 21 or below equals the dealer |
| Outcomes.BothBustMeansDealerWins | Blackjack.java:197-200 | "Both players bust! Dealer wins." is printed exactly when both players are bust, whatever the dealer's score, and the tie test cannot fire then |
| Outcomes.DealerBustWinners | Blackjack.java:201-208 | with a bust dealer, no tie and not both players bust, the players who are not bust are the winners named |
| Outcomes.HigherPlayerWins | Blackjack.java:209-213 | with the dealer at 21 or below, no tie and not both bust, a player is named winner exactly when not bust and above the other player or with the other bust |
| Outcomes.SomePlayerWins | Blackjack.java:197-213 | some player is named winner exactly when neither the tie test nor the both-bust test succeeds |
| Outcomes.NotableVerdicts | Blackjack.java:197-213 | the verdicts on particular scores, including a two-player tie against a bust dealer and a winner below the dealer |
| Draws.Remaining | Blackjack.java:153-155 | each deal removes one card from the deck |
| Draws.Drawn | Blackjack.java:153-156 | each deal takes one card |
| Draws.DrawsConserveCards | Blackjack.java:153-157 | the cards left and the cards taken make up the starting deck, each as often as in it |
| Draws.FitsAfter | Blackjack.java:154 | the rolls left after n deals are valid indexes for the smaller deck |
| Draws.RemainingCompose | Blackjack.java:153-157 | n deals followed by m more leave the deck that n + m deals leave |
| Draws.DrawnCompose | Blackjack.java:153-157 | n deals followed by m more take the same cards, in the same order, as n + m deals |
| Draws.DrawnAt | Blackjack.java:153-157 | a card once taken stays the k-th card taken, whatever deals follow |
| Draws.Order | Blackjack.java:153-157 | dealing out the whole deck takes as many cards as it holds |
| Draws.OrderIsPermutation | Blackjack.java:153-157 | the order in which a script deals the whole deck is a permutation of that deck |
| Draws.DrawnIsPrefix | Blackjack.java:153-157 | the first n deals take the first n cards of that order |
| Draws.RemainingHoldsRest | Blackjack.java:153-157 | after n deals the deck holds exactly the cards of the order not yet dealt |
| Draws.OrderAfter | Blackjack.java:153-157 | dealing from the deck left after n deals, with the rolls not yet used, continues the same order |
| Players.Player.constructor | Blackjack.java:30-33 | a new player has the given name and an empty hand |
| Players.Player.AddCard | Blackjack.java:35-37 | the card is appended to the end of the hand and nothing else changes |
| Players.Player.CalculateHandValue | Blackjack.java:47-61 | the two loops return `Score(hand)`, the total with the least number of Aces counted as 1 that brings it to 21 or below, or all Aces if none does |
| Turns.PlayerTurnFrom | Blackjack.java:163-172 | the player's loop draws no more cards than it reads answers, reads no more answers than there are, and deals no more cards than the deck holds |
| Turns.PlayerTurn | Blackjack.java:159-173 | the same bounds for a whole turn |
| Turns.DealerTurnFrom | Blackjack.java:184-188 | the dealer's loop deals no more cards than the deck holds |
| Turns.DealerTurn | Blackjack.java:181-190 | the same bound for a whole dealer turn |
| Turns.PlayerTurnFromHits | Blackjack.java:163-164 | from any point of the loop reached after hits only, every card dealt answers a "hit" |
| Turns.PlayerTurnFromUnder22 | Blackjack.java:163-170 | from any point of the loop reached with every earlier hand at 21 or below, every card is dealt to a hand that scores 21 or below |
| Turns.PlayerTurnFromEnds | Blackjack.java:163-172 | from any point of the loop, how the turn ends: a bust right after a hit, a stay, input exhausted at a question, or a hit with no card left |
| Turns.PlayerTurnHitsOnly | Blackjack.java:163-164 | every card a player is dealt answers a "hit" |
| Turns.PlayerTurnHitsUnder22 | Blackjack.java:163-170 | a player is dealt a card only while the hand scores 21 or less, so never after a bust |
| Turns.PlayerTurnEnds | Blackjack.java:159-179 | a bust ends the turn at once and only after a hit; a stay ends it with the hand at 21 or below (or with no question asked if the hand starts over 21); running out of answers ends it at a question; a hit with no card left ends it, every card dealt |
| Turns.PlayerTurnAborts | Blackjack.java:163-164 | a turn ended by an exception has read every answer or dealt every card |
| Turns.DealerTurnFromFacts | Blackjack.java:184-188 | from any point of the dealer's loop, the dealer draws only while under 17, finishes exactly at 17 or more, and fails to finish only with the deck dealt out |
| Turns.DealerTurnStopsAt17 | Blackjack.java:181-190 | the dealer draws only while below 17 and finishes exactly when its score is 17 or more; it fails to finish only when the deck runs out; a dealer already at 17 or more draws nothing |
| Rounds.Hand1 | Blackjack.java:140-142 | player 1's hand starts with the first two cards dealt and grows by its hits |
| Rounds.Hand2 | Blackjack.java:143-144 | player 2's hand starts with the third and fourth cards dealt and grows by its hits |
| Rounds.DealerPlays | Blackjack.java:101-103 | the guard of `main` around `playDealerTurn`: both turns ended normally and some player scores 21 or less; see `ShowdownSettles`, `DealerTurnSettles` and `BothBustSettles` |
| Rounds.DealerRun | Blackjack.java:101-103 | the dealer's draws stay within the deck |
| Rounds.Dealt | Blackjack.java:96-103 | the number of cards dealt lies between the players' last card and the deck size |
| Rounds.DealerHand | Blackjack.java:145-146 | the dealer's hand starts with the fifth and sixth cards dealt and grows by its draws |
| Rounds.Result | Blackjack.java:96-105 | how `main` ends: the exception that ended a turn, the empty deck in the dealer's turn, or the message `determineWinner` prints for the final hands; see `PlaySettles` and `PlayAlwaysReports`, and `Game.PlayGame`, which is proved to compute it |
| Rounds.Play | Blackjack.java:96-99 | the two turns occupy consecutive stretches of the deal after the first six cards, and read no more answers than there are |
| Rounds.SecondTurn | Blackjack.java:99 | player 2's turn starts where player 1's ended and reads the answers player 1 left |
| Rounds.DealerTurnSettles | Blackjack.java:101-105 | when a player scores 21 or less, the dealer draws only while under 17 and ends at 17 or more, and the game is decided unless the deck runs out |
| Rounds.BothBustSettles | Blackjack.java:101-105 | when both players bust, the dealer draws nothing and "Both players bust! Dealer wins." is printed |
| Rounds.ShowdownSettles | Blackjack.java:101-105 | once both turns end normally, the game is decided by the dealer rule, or ends only because the deck runs out |
| Rounds.SecondTurnSettles | Blackjack.java:99-105 | a game that reaches player 2's turn is settled |
| Rounds.PlaySettles | Blackjack.java:96-105 | every game is either decided, with the dealer having kept the draw-to-17 rule or skipped it when both players bust, or ended by an exception with every answer read or every card dealt |
| Rounds.DealtInOrder | Blackjack.java:96-103 | the hands hold the cards in the order of the deal: two each to player 1, player 2 and the dealer, then player 1's hits, player 2's hits and the dealer's draws |
| Rounds.HandTails | Blackjack.java:96-103 | after its first two cards, each hand holds its own stretch of the deal |
| Rounds.HandsConserveCards | Blackjack.java:96-103 | the three hands together hold exactly the cards dealt, each as often as it was dealt |
| Rounds.PlayAlwaysReports | Blackjack.java:105 | a decided game always prints a message, and never "Dealer wins." |
| Game.Blackjack.Valid | Blackjack.java:28-37 | the class invariant: the three seats hold different players, and every card of the game is in the deck (line 82) or in one hand, as often as it belongs to the game; every method from `Deal` to `PlayShowdown` keeps it, and `ConservedIsSum` restates it as a multiset sum |
| Game.Blackjack.constructor | Blackjack.java:91-93 | three distinct players: the two named ones and "Dealer", with empty hands; the game holds no cards yet, and `Valid` holds |
| Game.Blackjack.CardsAccounted | Blackjack.java:82 | while every card is in the deck or a hand, there are 52 in all and none in two places |
| Game.Blackjack.InitializeDeck | Blackjack.java:115-123 | the nested loops build the full deck, with each value looked up through getIndex; the cards of the game become that deck and the hands, so `Valid` holds |
| Game.Blackjack.Deal | Blackjack.java:153-157 | the card at the chosen index leaves the deck and goes to the end of the player's hand; the rest of the deck keeps its order; the other hands are unchanged; `Valid` is kept for the same cards of the game, so the number of cards held does not change |
| Game.Blackjack.DealNext | Blackjack.java:153-157 | a deal with the next roll takes the next card of the order and leaves the deck the script predicts; `Valid` is kept |
| Game.Blackjack.DealInitialCards | Blackjack.java:140-147 | two deals each to player 1, player 2 and the dealer, in that order; `Valid` is kept |
| Game.Blackjack.PlayPlayerTurn | Blackjack.java:159-179 | the loop computes `Turns.PlayerTurn`: the hand grows by exactly the cards dealt, in order, and the deck loses them; `Valid` is a loop invariant, so it holds after every deal |
| Game.Blackjack.PlayDealerTurn | Blackjack.java:181-190 | the loop computes `Turns.DealerTurn`, with the same hand and deck effects; `Valid` is a loop invariant |
| Game.Blackjack.PlayRound | Blackjack.java:96-105 | the game from the first deal on computes `Rounds.Play` and `Rounds.Result`: the hands, the deck and the result; `Valid` is kept |
| Game.Blackjack.PlayFromSecondTurn | Blackjack.java:99-105 | the game from player 2's turn on computes `Rounds.SecondTurn` and `Rounds.Result`; `Valid` is kept |
| Game.Blackjack.PlayShowdown | Blackjack.java:101-105 | the dealer guard, the dealer's turn and determineWinner compute `Rounds.Result` and the dealer's final hand; `Valid` is kept |
| Game.DeckAfter | Blackjack.java:153-157 | the deck after the game's last deals is the one the script predicts |
| Game.ConservedIsSum | Blackjack.java:82 | counting card by card, as `Valid` does, is the same as the deck and the three hands adding up to the cards of the game as multisets, in both directions |
| Game.GameConservesCards | Blackjack.java:95-105 | the conservation `Valid` states of the objects, stated of the functions instead: for any cuts of the dealing order, the deck `Remaining` leaves and the hands `Rounds.Hand1`, `Rounds.Hand2` and `Rounds.DealerHand` together hold the full deck, each card exactly as often as in it |
| Game.PlayGame | Blackjack.java:84-108 | main: a game on a fresh full deck ends with the hands, deck and result `Rounds.Play` and `Rounds.Result` describe, and every card of the full deck is in exactly one place |

Lemmas that only unfold one step of a definition for the proofs above have no row: `Draws.DrawStep`, `Turns.HandStep`, `Rounds.FirstTurnThen`, `Rounds.SecondTurnThen`, `Rounds.DealerPlayedWith`, `Rounds.DealerSkippedWith` and `Rounds.AbortedWith`. The same goes for the generic sequence and arithmetic helpers.

## Left out

- Console output: the welcome lines, every `println` of hands and messages, and the `toString` methods of `Card` and `Player`. The model returns the message as a `Verdict` instead of printing it.
- `getPlayerName`: the names are parameters of `PlayGame`, not lines read from the console.
- `hitOrStay`: each answer is a `bool`, true when the trimmed, lower-cased line equals `"h"`. The string handling itself is not modelled.
- Input running out: `nextLine` throwing at the end of input is the result `Crashed(InputExhausted)`. Both players share one sequence of answers, as they share one `Scanner`.
- `java.util.Random`: each random index is a parameter, one per deal, below the deck size at that deal. Uniformity is not modelled.
- An empty deck: a deal with no card left becomes `nextInt(0)`, which throws. The model ends the game with `Crashed(DeckExhausted)` before dealing. `Game.Blackjack.Deal` requires a valid index.
- `SCANNER.close()`: no model of the input stream's lifetime.
- The accessors `getValue`, `getHand` and `getName` are the datatype fields and class fields themselves.
- The static `deck` field is a field of the `Blackjack` class, and the three local players of `main` are its fields too. `main` is split into `PlayRound`, `PlayFromSecondTurn` and `PlayShowdown`.
- Integer overflow in `calculateHandValue`: at most 52 cards of value at most 11 cannot overflow an `int`, so the hand total is an unbounded integer.
- Cards.ParseInt: accepts ASCII digits only. Java's `parseInt` also accepts other Unicode decimal digits. This makes no difference for the rank names it is given.
