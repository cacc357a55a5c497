/** A participant of the game: a name and the hand of cards dealt to it. */
module Players {
  import opened Cards
  import opened Scoring

  class Player {
    const name: string
    var hand: seq<Card>

    constructor (name: string)
      ensures this.name == name && hand == []
    {
      this.name := name;
      hand := [];
    }

    /** addCard: the card goes to the end of the hand. */
    method AddCard(card: Card)
      modifies this
      ensures hand == old(hand) + [card]
    {
      hand := hand + [card];
    }

    /**
     * calculateHandValue: sums the values and counts the 11s, then counts
     * Aces as 1 one at a time while the total is over 21.
     */
    method CalculateHandValue() returns (value: int)
      ensures value == Score(hand)
    {
      var totalValue := 0;
      var numAces := 0;
      for i := 0 to |hand|
        invariant totalValue == TotalOf(Values(hand), i)
        invariant numAces == AcesOf(Values(hand), i)
      {
        totalValue := totalValue + hand[i].value;
        if hand[i].value == 11 {
          numAces := numAces + 1;
        }
      }
      ghost var total, aces := totalValue, numAces;
      while totalValue > 21 && numAces > 0
        invariant 0 <= numAces <= aces
        invariant totalValue == Lowered(total, aces - numAces)
        invariant forall j :: 0 <= j < aces - numAces ==> Lowered(total, j) > 21
      {
        totalValue := totalValue - 10;
        numAces := numAces - 1;
      }
      DemotionsUnique(total, aces, aces - numAces);
      value := totalValue;
    }
  }
}
