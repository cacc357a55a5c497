/**
 * One game: the deck, the two players and the dealer, dealing, the turn
 * loops and the sequence main runs them in. The random index of every deal
 * comes from a script of rolls and the hit/stay answers from a script of
 * choices, so a game is determined by its inputs; each method is proved to
 * compute the function of Turns or Rounds that describes it.
 */
module Game {
  import opened Cards
  import opened Scoring
  import opened Outcomes
  import opened Draws
  import opened Players
  import opened Turns
  import opened Rounds

  class Blackjack {
    var deck: seq<Card>
    const player1: Player
    const player2: Player
    const dealer: Player
    /** The cards of this game: none before the deck is built, then those of the deck and the hands. */
    ghost var allCards: multiset<Card>

    /** The three seats are held by three different players. */
    ghost predicate Seats() {
      player1 != player2 && player1 != dealer && player2 != dealer
    }

    ghost predicate Seated(p: Player) {
      p == player1 || p == player2 || p == dealer
    }

    /** The cards held in the three hands. */
    ghost function Hands(): multiset<Card>
      reads player1, player2, dealer
    {
      multiset(player1.hand) + multiset(player2.hand) + multiset(dealer.hand)
    }

    /** Every card of the game is held as often as it belongs to it, in the deck or one of the hands. */
    ghost predicate Valid()
      reads this, player1, player2, dealer
    {
      Seats() && Conserved(deck, player1.hand, player2.hand, dealer.hand, allCards)
    }

    /** The players of one game, with empty hands and no deck yet: no cards at all. */
    constructor (name1: string, name2: string)
      ensures fresh(player1) && fresh(player2) && fresh(dealer)
      ensures Valid() && allCards == multiset{}
      ensures player1.name == name1 && player2.name == name2 && dealer.name == "Dealer"
      ensures player1.hand == [] && player2.hand == [] && dealer.hand == [] && deck == []
    {
      player1 := new Player(name1);
      player2 := new Player(name2);
      dealer := new Player("Dealer");
      deck := [];
      allCards := multiset{};
    }

    /** The deck and the hands hold 52 cards, and no card is in two places or twice in one. */
    lemma CardsAccounted()
      requires Valid() && allCards == multiset(FullDeck())
      ensures |deck| + |player1.hand| + |player2.hand| + |dealer.hand| == DECK_SIZE
      ensures forall c :: multiset(deck)[c] + multiset(player1.hand)[c] + multiset(player2.hand)[c]
                            + multiset(dealer.hand)[c] <= 1
    {
      FullDeckAtMostOnce();
      ConservedIsSum(deck, player1.hand, player2.hand, dealer.hand, allCards);
      var m := multiset(FullDeck());
      assert |m| == DECK_SIZE;
      forall c
        ensures multiset(deck)[c] + multiset(player1.hand)[c] + multiset(player2.hand)[c]
                + multiset(dealer.hand)[c] <= 1
      {
        assert Tally(deck, player1.hand, player2.hand, dealer.hand, c) == m[c] <= 1;
      }
    }

    /**
     * initializeDeck: one card per rank and suit, its value looked up through
     * getIndex. The cards of the game become the new deck and the hands.
     */
    method InitializeDeck()
      requires Seats()
      modifies this
      ensures deck == FullDeck()
      ensures Valid() && allCards == multiset(FullDeck()) + Hands()
    {
      deck := [];
      for r := 0 to |RANKS|
        invariant deck == FullDeck()[..4 * r]
      {
        var rank := RANKS[r];
        GetIndexOfRank(r);
        for s := 0 to |SUITS|
          invariant deck == FullDeck()[..4 * r + s]
        {
          var value := VALUES[GetIndex(rank).value];
          FullDeckGrows(deck, r, s);
          deck := deck + [Card(rank, SUITS[s], value)];
        }
      }
      assert deck == FullDeck()[..DECK_SIZE];
      allCards := multiset(deck) + Hands();
      forall c ensures Tally(deck, player1.hand, player2.hand, dealer.hand, c) == allCards[c] {
      }
    }

    /** deal: the card at index i (the random index) leaves the deck and goes to the end of p's hand. */
    method Deal(p: Player, i: nat)
      requires Valid() && Seated(p) && i < |deck|
      modifies this, p
      ensures Valid() && allCards == old(allCards)
      ensures |deck| + |player1.hand| + |player2.hand| + |dealer.hand|
              == old(|deck| + |player1.hand| + |player2.hand| + |dealer.hand|)
      ensures deck == old(deck)[..i] + old(deck)[i + 1..]
      ensures p.hand == old(p.hand) + [old(deck)[i]]
      ensures p != player1 ==> player1.hand == old(player1.hand)
      ensures p != player2 ==> player2.hand == old(player2.hand)
      ensures p != dealer ==> dealer.hand == old(dealer.hand)
    {
      var card := deck[i];
      RemoveAtMultiset(deck, i);
      deck := deck[..i] + deck[i + 1..];
      p.AddCard(card);
      forall c ensures Tally(deck, player1.hand, player2.hand, dealer.hand, c) == allCards[c] {
        assert old(Tally(deck, player1.hand, player2.hand, dealer.hand, c)) == allCards[c];
      }
    }

    /**
     * deal with its random index taken from the script: the (k+1)-th deal of
     * a script started on deck `start` takes card k of the order the script
     * deals `start` in.
     */
    method DealNext(p: Player, rolls: seq<nat>, ghost start: seq<Card>, k: nat)
      requires Valid() && Seated(p) && Fits(rolls, |start|) && k < |start|
      requires deck == Remaining(start, rolls, k)
      modifies this, p
      ensures Valid() && allCards == old(allCards)
      ensures deck == Remaining(start, rolls, k + 1)
      ensures p.hand == old(p.hand) + [Order(start, rolls)[k]]
      ensures p != player1 ==> player1.hand == old(player1.hand)
      ensures p != player2 ==> player2.hand == old(player2.hand)
      ensures p != dealer ==> dealer.hand == old(dealer.hand)
    {
      DrawStep(start, rolls, k);
      DrawnIsPrefix(start, rolls, k + 1);
      Deal(p, rolls[k]);
    }

    /** dealInitialCards: two deals each to player 1, player 2 and the dealer, in that order. */
    method DealInitialCards(rolls: seq<nat>)
      requires Valid() && Fits(rolls, |deck|) && |deck| >= 6
      modifies this, player1, player2, dealer
      ensures Valid() && allCards == old(allCards)
      ensures deck == Remaining(old(deck), rolls, 6)
      ensures var order := Order(old(deck), rolls);
              && player1.hand == old(player1.hand) + [order[0], order[1]]
              && player2.hand == old(player2.hand) + [order[2], order[3]]
              && dealer.hand == old(dealer.hand) + [order[4], order[5]]
    {
      ghost var start := deck;
      DealNext(player1, rolls, start, 0);
      DealNext(player1, rolls, start, 1);
      DealNext(player2, rolls, start, 2);
      DealNext(player2, rolls, start, 3);
      DealNext(dealer, rolls, start, 4);
      DealNext(dealer, rolls, start, 5);
    }

    /**
     * playPlayerTurn: while the score is 21 or less, ask hit or stay; on a
     * hit deal a card and end the turn at once if the score is then over 21.
     * The deals take the deck in the order `rolls` deals it, `cards`. `used` counts
     * the answers read, `draws` the cards dealt; the turn is the one
     * Turns.PlayerTurn describes.
     */
    method PlayPlayerTurn(p: Player, choices: seq<bool>, rolls: seq<nat>, ghost cards: seq<Card>)
      returns (end: TurnEnd, used: nat, draws: nat)
      requires Valid() && Seated(p) && Fits(rolls, |deck|) && cards == Order(deck, rolls)
      modifies this, p
      ensures Valid() && allCards == old(allCards)
      ensures PlayerTurn(cards, old(p.hand), choices) == PlayerTurnResult(end, used, draws)
      ensures draws <= |cards| && deck == Remaining(old(deck), rolls, draws)
      ensures p.hand == old(p.hand) + cards[..draws]
      ensures p != player1 ==> player1.hand == old(player1.hand)
      ensures p != player2 ==> player2.hand == old(player2.hand)
      ensures p != dealer ==> dealer.hand == old(dealer.hand)
    {
      ghost var start, held := deck, p.hand;
      end, used, draws := Stood, 0, 0;
      var handValue := p.CalculateHandValue();
      while handValue <= 21
        invariant Valid() && allCards == old(allCards)
        invariant draws <= |start| && used == draws <= |choices|
        invariant deck == Remaining(start, rolls, draws)
        invariant p.hand == held + cards[..draws]
        invariant handValue == Score(p.hand)
        invariant PlayerTurnFrom(cards, held, choices, draws) == PlayerTurn(cards, held, choices)
        invariant p != player1 ==> player1.hand == old(player1.hand)
        invariant p != player2 ==> player2.hand == old(player2.hand)
        invariant p != dealer ==> dealer.hand == old(dealer.hand)
        decreases |choices| - used
      {
        if used == |choices| {
          end := Aborted(InputExhausted);
          return;
        }
        var hit := choices[used];
        used := used + 1;
        if !hit {
          return;
        }
        if deck == [] {
          end := Aborted(DeckExhausted);
          return;
        }
        HandStep(cards, held, draws);
        DealNext(p, rolls, start, draws);
        draws := draws + 1;
        handValue := p.CalculateHandValue();
        if handValue > 21 {
          end := Busted;
          return;
        }
      }
    }

    /**
     * playDealerTurn: the dealer draws while its score is below 17, the deck
     * taken in the order `rolls` deals it, `cards`. `draws` counts the cards dealt;
     * finished is false when the deck ran out first. The turn is the one
     * Turns.DealerTurn describes.
     */
    method PlayDealerTurn(rolls: seq<nat>, ghost cards: seq<Card>) returns (finished: bool, draws: nat)
      requires Valid() && Fits(rolls, |deck|) && cards == Order(deck, rolls)
      modifies this, dealer
      ensures Valid() && allCards == old(allCards)
      ensures DealerTurn(cards, old(dealer.hand)) == DealerTurnResult(finished, draws)
      ensures draws <= |cards| && deck == Remaining(old(deck), rolls, draws)
      ensures dealer.hand == old(dealer.hand) + cards[..draws]
    {
      ghost var start, held := deck, dealer.hand;
      draws := 0;
      var dealerHandValue := dealer.CalculateHandValue();
      while dealerHandValue < 17
        invariant Valid() && allCards == old(allCards)
        invariant draws <= |start|
        invariant deck == Remaining(start, rolls, draws)
        invariant dealer.hand == held + cards[..draws]
        invariant dealerHandValue == Score(dealer.hand)
        invariant DealerTurnFrom(cards, held, draws) == DealerTurn(cards, held)
        decreases |deck|
      {
        if deck == [] {
          finished := false;
          return;
        }
        HandStep(cards, held, draws);
        DealNext(dealer, rolls, start, draws);
        draws := draws + 1;
        dealerHandValue := dealer.CalculateHandValue();
      }
      finished := true;
    }

    /**
     * The part of main after initializeDeck, on any deck of six cards or
     * more, with the three hands empty: dealInitialCards, then player 1's
     * turn; the rest of the game is PlayFromSecondTurn.
     */
    method PlayRound(choices: seq<bool>, rolls: seq<nat>) returns (result: GameResult, ghost t: Table)
      requires Valid() && Fits(rolls, |deck|) && |deck| >= 6
      requires player1.hand == [] && player2.hand == [] && dealer.hand == []
      modifies this, player1, player2, dealer
      ensures Valid() && allCards == old(allCards)
      ensures var order := Order(old(deck), rolls);
              && t == Play(order, choices)
              && result == Result(order, t)
              && player1.hand == Hand1(order, t)
              && player2.hand == Hand2(order, t)
              && dealer.hand == DealerHand(order, t)
              && deck == Remaining(old(deck), rolls, Dealt(order, t))
    {
      ghost var start := deck;
      ghost var order := Order(start, rolls);
      DealInitialCards(rolls);
      AppendToEmpty([order[0], order[1]]);
      AppendToEmpty([order[2], order[3]]);
      AppendToEmpty([order[4], order[5]]);
      OrderAfter(start, rolls, 6);
      var end1, used1, draws1 := PlayPlayerTurn(player1, choices, rolls[6..], order[6..]);
      RemainingCompose(start, rolls, 6, draws1);
      FirstTurnThen(order, choices, PlayerTurnResult(end1, used1, draws1));
      SliceOfSuffix(order, 6, draws1);
      var cut1 := 6 + draws1;
      if end1.Aborted? {
        result := Crashed(end1.why);
        t := Table(cut1, cut1, used1, TurnAborted(end1.why));
        AbortedWith(order, t);
      } else {
        result, t := PlayFromSecondTurn(choices, rolls, start, cut1, used1);
      }
    }

    /**
     * The rest of main once player 1's turn has ended normally after
     * `cut1` deals and `read` answers: player 2's turn on the answers left,
     * then PlayShowdown unless it ended by an exception. The turns are the
     * ones Rounds.SecondTurn describes.
     */
    method PlayFromSecondTurn(choices: seq<bool>, rolls: seq<nat>, ghost start: seq<Card>, cut1: nat, read: nat)
      returns (result: GameResult, ghost t: Table)
      requires Valid() && Fits(rolls, |start|) && 6 <= cut1 <= |start| && read <= |choices|
      requires deck == Remaining(start, rolls, cut1)
      requires var order := Order(start, rolls);
               && player1.hand == [order[0], order[1]] + order[6..cut1]
               && player2.hand == [order[2], order[3]]
               && dealer.hand == [order[4], order[5]]
      modifies this, player1, player2, dealer
      ensures Valid() && allCards == old(allCards)
      ensures var order := Order(start, rolls);
              && t == SecondTurn(order, choices, cut1, read)
              && result == Result(order, t)
              && player1.hand == Hand1(order, t)
              && player2.hand == Hand2(order, t)
              && dealer.hand == DealerHand(order, t)
              && deck == Remaining(start, rolls, Dealt(order, t))
    {
      ghost var order := Order(start, rolls);
      OrderAfter(start, rolls, cut1);
      var end2, used2, draws2 := PlayPlayerTurn(player2, choices[read..], rolls[cut1..], order[cut1..]);
      SecondTurnThen(order, choices, cut1, read, PlayerTurnResult(end2, used2, draws2));
      var cut2 := cut1 + draws2;
      if end2.Aborted? {
        t := Table(cut1, cut2, read + used2, TurnAborted(end2.why));
        result := Crashed(end2.why);
        AbortedWith(order, t);
        DeckAfter(start, rolls, t, cut1, draws2);
      } else {
        RemainingCompose(start, rolls, cut1, draws2);
        t := Table(cut1, cut2, read + used2, TurnsDone);
        result := PlayShowdown(rolls, start, cut2, t);
      }
    }

    /**
     * The end of main once both players' turns `t` have ended normally,
     * after `cut2` deals: the dealer's turn only if some player scores 21
     * or less, then determineWinner unless the deck ran out.
     */
    method PlayShowdown(rolls: seq<nat>, ghost start: seq<Card>, cut2: nat, ghost t: Table) returns (result: GameResult)
      requires Valid() && Fits(rolls, |start|) && Cuts(Order(start, rolls), t)
      requires t.cut2 == cut2 && t.ending == TurnsDone && deck == Remaining(start, rolls, cut2)
      requires player1.hand == Hand1(Order(start, rolls), t) && player2.hand == Hand2(Order(start, rolls), t)
      requires dealer.hand == [Order(start, rolls)[4], Order(start, rolls)[5]]
      modifies this, dealer
      ensures Valid() && allCards == old(allCards)
      ensures result == Result(Order(start, rolls), t)
      ensures dealer.hand == DealerHand(Order(start, rolls), t)
      ensures deck == Remaining(start, rolls, Dealt(Order(start, rolls), t))
    {
      ghost var order := Order(start, rolls);
      var score1 := player1.CalculateHandValue();
      var score2 := player2.CalculateHandValue();
      if score1 <= 21 || score2 <= 21 {
        OrderAfter(start, rolls, cut2);
        var finished, draws3 := PlayDealerTurn(rolls[cut2..], order[cut2..]);
        DealerPlayedWith(order, t, score1, score2, DealerTurnResult(finished, draws3));
        DeckAfter(start, rolls, t, cut2, draws3);
        if !finished {
          result := Crashed(DeckExhausted);
        } else {
          var dealerScore := dealer.CalculateHandValue();
          result := Decided(DetermineWinner(score1, score2, dealerScore));
        }
      } else {
        DealerSkippedWith(order, t, score1, score2);
        var dealerScore := dealer.CalculateHandValue();
        result := Decided(DetermineWinner(score1, score2, dealerScore));
      }
    }
  }

  /** How many times card c is held in the deck and the three hands together. */
  ghost function Tally(deck: seq<Card>, hand1: seq<Card>, hand2: seq<Card>, hand3: seq<Card>, c: Card): nat {
    multiset(deck)[c] + multiset(hand1)[c] + multiset(hand2)[c] + multiset(hand3)[c]
  }

  /** Each card of `all` is held in the deck and the hands as often as in `all`, and no other card is held. */
  ghost predicate Conserved(deck: seq<Card>, hand1: seq<Card>, hand2: seq<Card>, hand3: seq<Card>, all: multiset<Card>) {
    forall c {:trigger Tally(deck, hand1, hand2, hand3, c)} :: Tally(deck, hand1, hand2, hand3, c) == all[c]
  }

  /** Card by card conservation is the deck and the hands adding up to `all`, as multisets. */
  lemma ConservedIsSum(deck: seq<Card>, hand1: seq<Card>, hand2: seq<Card>, hand3: seq<Card>, all: multiset<Card>)
    ensures Conserved(deck, hand1, hand2, hand3, all)
            <==> multiset(deck) + multiset(hand1) + multiset(hand2) + multiset(hand3) == all
  {
    var sum := multiset(deck) + multiset(hand1) + multiset(hand2) + multiset(hand3);
    if Conserved(deck, hand1, hand2, hand3, all) {
      forall c ensures sum[c] == all[c] {
        assert Tally(deck, hand1, hand2, hand3, c) == all[c];
      }
    }
    if sum == all {
      forall c ensures Tally(deck, hand1, hand2, hand3, c) == all[c] {
        assert sum[c] == all[c];
      }
    }
  }

  /** A card dealt to an empty hand makes up the whole hand. */
  lemma AppendToEmpty(cards: seq<Card>)
    ensures [] + cards == cards
  {
  }

  /** The deck after the game's last deals: `draws` cards dealt once `cut` were. */
  lemma DeckAfter(start: seq<Card>, rolls: seq<nat>, t: Table, cut: nat, draws: nat)
    requires Fits(rolls, |start|) && Cuts(Order(start, rolls), t)
    requires Dealt(Order(start, rolls), t) == cut + draws
    ensures Fits(rolls[cut..], |Remaining(start, rolls, cut)|)
    ensures Remaining(start, rolls, Dealt(Order(start, rolls), t)) == Remaining(Remaining(start, rolls, cut), rolls[cut..], draws)
  {
    RemainingCompose(start, rolls, cut, draws);
  }

  /** The first n cards after position a are the cards from a to a + n. */
  lemma SliceOfSuffix(s: seq<Card>, a: nat, n: nat)
    requires a + n <= |s|
    ensures s[a..][..n] == s[a..a + n]
  {
  }

  /**
   * After a game whose turns end at any cuts of the order, the deck and the
   * three hands together hold the full deck, each card as often as in it.
   */
  lemma GameConservesCards(rolls: seq<nat>, t: Table)
    requires Fits(rolls, DECK_SIZE) && Cuts(Order(FullDeck(), rolls), t)
    ensures var order := Order(FullDeck(), rolls);
            multiset(Remaining(FullDeck(), rolls, Dealt(order, t)))
              + (multiset(Hand1(order, t)) + multiset(Hand2(order, t)) + multiset(DealerHand(order, t)))
            == multiset(FullDeck())
  {
    var order := Order(FullDeck(), rolls);
    DrawsConserveCards(FullDeck(), rolls, Dealt(order, t));
    DrawnIsPrefix(FullDeck(), rolls, Dealt(order, t));
    HandsConserveCards(order, t);
  }

  /**
   * main, after the names are read: build the deck and play the game on
   * it. The game ends with the hands, the deck and the result Rounds.Play
   * and Rounds.Result describe, and every card of the full deck in exactly
   * one place.
   */
  method PlayGame(name1: string, name2: string, choices: seq<bool>, rolls: seq<nat>)
    returns (game: Blackjack, result: GameResult)
    requires Fits(rolls, DECK_SIZE)
    ensures fresh(game) && game.Valid() && game.allCards == multiset(FullDeck())
    ensures game.player1.name == name1 && game.player2.name == name2 && game.dealer.name == "Dealer"
    ensures var order := Order(FullDeck(), rolls);
            var t := Play(order, choices);
            && result == Result(order, t)
            && game.player1.hand == Hand1(order, t)
            && game.player2.hand == Hand2(order, t)
            && game.dealer.hand == DealerHand(order, t)
            && game.deck == Remaining(FullDeck(), rolls, Dealt(order, t))
  {
    game := new Blackjack(name1, name2);
    game.InitializeDeck();
    ghost var t: Table;
    result, t := game.PlayRound(choices, rolls);
  }
}
