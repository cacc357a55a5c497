/** Cards, the rank/suit/value tables and the full 52-card deck they describe. */
module Cards {

  datatype Option<T> = None | Some(value: T)

  /** A playing card: its rank and suit names and its value (an Ace is created with 11). */
  datatype Card = Card(rank: string, suit: string, value: int)

  const RANKS: seq<string> :=
    ["2", "3", "4", "5", "6", "7", "8", "9", "10", "Jack", "Queen", "King", "Ace"]
  const SUITS: seq<string> := ["Clubs", "Diamonds", "Hearts", "Spades"]
  const VALUES: seq<int> := [2, 3, 4, 5, 6, 7, 8, 9, 10, 10, 10, 10, 11]

  const DECK_SIZE: nat := 52

  // ---------------------------------------------------------------------------
  // Java's 32-bit int and Integer.parseInt
  // ---------------------------------------------------------------------------

  const INT_MIN: int := -0x8000_0000
  const INT_MAX: int := 0x7fff_ffff

  /** Two's-complement wrap-around of an exact integer into Java's int range. */
  function Wrap32(x: int): (r: int)
    ensures INT_MIN <= r <= INT_MAX
    ensures (r - x) % 0x1_0000_0000 == 0
    ensures INT_MIN <= x <= INT_MAX ==> r == x
  {
    (x - INT_MIN) % 0x1_0000_0000 + INT_MIN
  }

  predicate IsDigit(c: char) {
    '0' <= c <= '9'
  }

  predicate AllDigits(s: string) {
    forall i :: 0 <= i < |s| ==> IsDigit(s[i])
  }

  /** The number written by a string of decimal digits, most significant first. */
  function DigitsValue(s: string): nat
    requires AllDigits(s)
  {
    if s == [] then 0
    else DigitsValue(s[..|s| - 1]) * 10 + (s[|s| - 1] as int - '0' as int)
  }

  /**
   * Integer.parseInt(s): an optional leading '-' or '+', then at least one
   * decimal digit, and a value that fits in an int; None stands for the
   * NumberFormatException thrown otherwise (an empty string, a lone sign,
   * a character that is not a digit, or a value out of range).
   */
  function ParseInt(s: string): (r: Option<int>)
    ensures r.Some? ==> INT_MIN <= r.value <= INT_MAX
    ensures s == [] || s == "-" || s == "+" ==> r == None
    ensures s != [] && s[0] != '-' && s[0] != '+' && !AllDigits(s) ==> r == None
    ensures |s| > 1 && (s[0] == '-' || s[0] == '+') && !AllDigits(s[1..]) ==> r == None
    ensures s != [] && AllDigits(s) ==>
              r == if DigitsValue(s) <= INT_MAX then Some(DigitsValue(s) as int) else None
    ensures |s| > 1 && s[0] == '+' && AllDigits(s[1..]) ==>
              r == if DigitsValue(s[1..]) <= INT_MAX then Some(DigitsValue(s[1..]) as int) else None
    ensures |s| > 1 && s[0] == '-' && AllDigits(s[1..]) ==>
              r == if DigitsValue(s[1..]) <= -INT_MIN then Some(0 - DigitsValue(s[1..]) as int) else None
  {
    if s == [] then None
    else
      var signed := s[0] == '-' || s[0] == '+';
      var digits := if signed then s[1..] else s;
      if digits == [] || !AllDigits(digits) then None
      else
        var m: int := if s[0] == '-' then 0 - DigitsValue(digits) as int else DigitsValue(digits);
        if INT_MIN <= m <= INT_MAX then Some(m) else None
  }

  /**
   * getIndex: the position of a rank name in RANKS. Face cards are matched by
   * name; any other string is parsed as a number and lowered by 2 in int
   * arithmetic. None stands for the exception parseInt throws.
   */
  function GetIndex(rank: string): (r: Option<int>)
    ensures rank == "Jack" ==> r == Some(9)
    ensures rank == "Queen" ==> r == Some(10)
    ensures rank == "King" ==> r == Some(11)
    ensures rank == "Ace" ==> r == Some(12)
    ensures r.Some? ==> INT_MIN <= r.value <= INT_MAX
    ensures rank != "Jack" && rank != "Queen" && rank != "King" && rank != "Ace" ==>
              (r.None? <==> ParseInt(rank).None?)
    ensures rank != "Jack" && rank != "Queen" && rank != "King" && rank != "Ace" && ParseInt(rank).Some? ==>
              r == Some(Wrap32(ParseInt(rank).value - 2))
  {
    match rank
    case "Jack" => Some(9)
    case "Queen" => Some(10)
    case "King" => Some(11)
    case "Ace" => Some(12)
    case _ =>
      match ParseInt(rank)
      case None => None
      case Some(n) => Some(Wrap32(n - 2))
  }

  /** getIndex inverts the RANKS table: the rank at position i is mapped back to i. */
  lemma GetIndexOfRank(i: nat)
    requires i < |RANKS|
    ensures GetIndex(RANKS[i]) == Some(i)
    ensures 0 <= GetIndex(RANKS[i]).value < |VALUES|
  {
    if i < 9 {
      var s := RANKS[i];
      assert AllDigits(s);
      if i < 8 {
        assert |s| == 1 && s[..0] == [];
        assert DigitsValue(s) == s[0] as int - '0' as int;
      } else {
        assert s == "10" && s[..1] == "1" && "1"[..0] == [];
        assert DigitsValue(s) == 10;
      }
      assert DigitsValue(s) == i + 2;
    }
  }

  /** The deck initializeDeck builds: rank by rank, and within a rank suit by suit. */
  function FullDeck(): (deck: seq<Card>)
    ensures |deck| == DECK_SIZE
  {
    seq(DECK_SIZE, k requires 0 <= k < DECK_SIZE => Card(RANKS[k / 4], SUITS[k % 4], VALUES[k / 4]))
  }

  /** The card of rank r and suit s sits at position 4 * r + s. */
  lemma FullDeckAt(r: nat, s: nat)
    requires r < |RANKS| && s < |SUITS|
    ensures 4 * r + s < DECK_SIZE
    ensures FullDeck()[4 * r + s] == Card(RANKS[r], SUITS[s], VALUES[r])
  {
    var k := 4 * r + s;
    DivMod4(r, s);
    assert FullDeck()[k] == Card(RANKS[k / 4], SUITS[k % 4], VALUES[k / 4]);
  }

  lemma DivMod4(r: nat, s: nat)
    requires s < 4
    ensures (4 * r + s) / 4 == r && (4 * r + s) % 4 == s
  {
  }

  /** initializeDeck's next card extends the deck built so far by the next card of the full deck. */
  lemma FullDeckGrows(deck: seq<Card>, r: nat, s: nat)
    requires r < |RANKS| && s < |SUITS| && deck == FullDeck()[..4 * r + s]
    ensures deck + [Card(RANKS[r], SUITS[s], VALUES[r])] == FullDeck()[..4 * r + s + 1]
  {
    FullDeckAt(r, s);
    TakeOneMore(FullDeck(), 4 * r + s);
  }

  /** A prefix one element longer is the prefix and that element. */
  lemma TakeOneMore<T>(s: seq<T>, n: nat)
    requires n < |s|
    ensures s[..n + 1] == s[..n] + [s[n]]
  {
  }

  /** A prefix is the shorter prefix followed by the slice between the two ends. */
  lemma PrefixSplit<T>(s: seq<T>, i: nat, j: nat)
    requires i <= j <= |s|
    ensures s[..j] == s[..i] + s[i..j]
  {
  }

  /** Appending one element after a concatenation appends it to the second part. */
  lemma SnocAssoc<T>(a: seq<T>, b: seq<T>, x: T)
    ensures (a + b) + [x] == a + (b + [x])
  {
  }

  /** Exactly one card of the full deck has a given (rank, suit) pair. */
  lemma FullDeckOnePerPair(r: nat, s: nat, k: nat)
    requires r < |RANKS| && s < |SUITS| && k < DECK_SIZE
    ensures FullDeck()[k].rank == RANKS[r] && FullDeck()[k].suit == SUITS[s] <==> k == 4 * r + s
  {
    FullDeckAt(r, s);
    var r', s' := k / 4, k % 4;
    assert k == 4 * r' + s';
    if FullDeck()[k].rank == RANKS[r] && FullDeck()[k].suit == SUITS[s] {
      assert RANKS[r'] == RANKS[r] && SUITS[s'] == SUITS[s];
      RanksDistinct(r, r');
      SuitsDistinct(s, s');
    }
  }

  lemma RanksDistinct(i: nat, j: nat)
    requires i < |RANKS| && j < |RANKS| && RANKS[i] == RANKS[j]
    ensures i == j
  {
  }

  lemma SuitsDistinct(i: nat, j: nat)
    requires i < |SUITS| && j < |SUITS| && SUITS[i] == SUITS[j]
    ensures i == j
  {
  }

  /** No card occurs twice in the full deck. */
  lemma FullDeckDistinct()
    ensures forall i, j :: 0 <= i < j < DECK_SIZE ==> FullDeck()[i] != FullDeck()[j]
  {
    forall i, j | 0 <= i < j < DECK_SIZE
      ensures FullDeck()[i] != FullDeck()[j]
    {
      FullDeckOnePerPair(i / 4, i % 4, j);
      assert i == 4 * (i / 4) + i % 4;
    }
  }

  /** In the full deck a card has value 11 exactly when it is an Ace, and every value lies in 2..11. */
  lemma FullDeckValues(k: nat)
    requires k < DECK_SIZE
    ensures FullDeck()[k].value == 11 <==> FullDeck()[k].rank == "Ace"
    ensures 2 <= FullDeck()[k].value <= 11
  {
    var r := k / 4;
    if FullDeck()[k].rank == "Ace" {
      RanksDistinct(r, 12);
    }
  }

  /** A sequence without repetitions holds each card at most once. */
  lemma {:induction false} DistinctAtMostOnce(s: seq<Card>)
    requires forall i, j :: 0 <= i < j < |s| ==> s[i] != s[j]
    ensures forall c :: multiset(s)[c] <= 1
  {
    if s != [] {
      var front, last := s[..|s| - 1], s[|s| - 1];
      assert s == front + [last];
      DistinctAtMostOnce(front);
      assert last !in front;
    }
  }

  /** Each card occurs at most once in the full deck. */
  lemma FullDeckAtMostOnce()
    ensures forall c :: multiset(FullDeck())[c] <= 1
  {
    FullDeckDistinct();
    DistinctAtMostOnce(FullDeck());
  }

  /** Removing the element at index i takes exactly one copy of it out of the multiset. */
  lemma RemoveAtMultiset<T>(s: seq<T>, i: nat)
    requires i < |s|
    ensures multiset(s) == multiset(s[..i] + s[i + 1..]) + multiset{s[i]}
  {
    assert s == s[..i] + [s[i]] + s[i + 1..];
  }
}
