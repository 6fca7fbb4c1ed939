/** Concrete hands: the straight cases of the package's unit test, the
    comparison that the command-line program runs, and two hands that show
    how the evaluator behaves where a reader might expect otherwise. */
module Scenarios {
  import opened Cards
  import opened Straights
  import opened Evaluator

  function Hearts5(r0: Rank, r1: Rank, r2: Rank, r3: Rank, r4: Rank): (h: Hand)
    ensures |h| == 5 && forall i :: 0 <= i < 5 ==> h[i].suit == Hearts
  {
    [Card(Hearts, r0), Card(Hearts, r1), Card(Hearts, r2), Card(Hearts, r3), Card(Hearts, r4)]
  }

  /** A-2-3-4-5 is a straight valued Five. */
  lemma WheelIsStraight()
    ensures StraightOf(Hearts5(Ace, Two, Three, Four, Five)) == Detection(true, Five)
  {
    var h := Hearts5(Ace, Two, Three, Four, Five);
    assert multiset(Ranks(h)) == Wheel by { FiveRanks(h); }
    StraightFound(h);
    StraightValue(h);
  }

  /** 10-J-Q-K-A, given Ace first, is a straight valued Ace. */
  lemma TenToAceIsStraight()
    ensures StraightOf(Hearts5(Ace, Ten, Jack, Queen, King)) == Detection(true, Ace)
  {
    var h := Hearts5(Ace, Ten, Jack, Queen, King);
    assert multiset(Ranks(h)) == Run(Ten) by { FiveRanks(h); }
    TenToAce(h);
  }

  /** 7-8-9-10-J given out of order is a straight valued Jack. */
  lemma SevenToJackIsStraight()
    ensures StraightOf(Hearts5(Jack, Seven, Ten, Nine, Eight)) == Detection(true, Jack)
  {
    var h := Hearts5(Jack, Seven, Ten, Nine, Eight);
    FiveRanks(h);
    assert multiset(Ranks(h)) == Run(Seven);
    MinMaxOf(h, Seven, Jack);
  }

  /** A-7-8-9-10 is not a straight, and is still valued Ace. */
  lemma AceSevenToTenIsNotStraight()
    ensures StraightOf(Hearts5(Ace, Seven, Ten, Nine, Eight)) == Detection(false, Ace)
  {
    var h := Hearts5(Ace, Seven, Ten, Nine, Eight);
    FiveRanks(h);
    MinMaxOf(h, Seven, Ace);
    RunMembers(Seven, Ace);
  }

  /** A Two and an Ace value any five ranks at Five, straight or not. */
  lemma TwoAndAceValuedFive()
    ensures StraightOf(Hearts5(Ace, Two, Seven, Nine, Jack)) == Detection(false, Five)
  {
    var h := Hearts5(Ace, Two, Seven, Nine, Jack);
    FiveRanks(h);
    MinMaxOf(h, Two, Ace);
    assert Seven in multiset(Ranks(h)) && Seven !in Wheel;
  }

  /** The first hand of the command-line program, card by card: the royal
      flush in hearts, given Ace first. */
  predicate RoyalHearts(h: Hand)
  {
    |h| == 5 && h[0] == Card(Hearts, Ace) && h[1] == Card(Hearts, King) && h[2] == Card(Hearts, Queen)
    && h[3] == Card(Hearts, Jack) && h[4] == Card(Hearts, Ten)
  }

  /** Its second hand: aces and kings, with a queen. */
  predicate AcesAndKings(h: Hand)
  {
    |h| == 5 && h[0] == Card(Spades, Ace) && h[1] == Card(Spades, King) && h[2] == Card(Clubs, Ace)
    && h[3] == Card(Diamonds, King) && h[4] == Card(Hearts, Queen)
  }

  /** Ten to Ace of hearts is a royal flush valued Ace. */
  lemma RoyalHeartsIsRoyal(h: Hand)
    requires RoyalHearts(h)
    ensures EvaluateHand(h) == Evaluation(RoyalFlush, Ace)
  {
    assert multiset(Ranks(h)) == Run(Ten) by {
      FiveRanks(h);
      assert multiset{Ace, King, Queen, Jack, Ten} == Run(Ten);
    }
    assert forall i :: 0 <= i < |h| ==> h[i].suit == h[0].suit by {
      forall i | 0 <= i < |h|
        ensures h[i].suit == Hearts
      {
        assert i == 0 || i == 1 || i == 2 || i == 3 || i == 4;
      }
    }
    RoyalFlushIff(h);
  }

  /** A-K-A-K-Q is two pair; the aces pair up first, so the value is
      `King * 13 + Ace`. */
  lemma AcesAndKingsIsTwoPair(h: Hand)
    requires AcesAndKings(h)
    ensures EvaluateHand(h) == Evaluation(TwoPair, King * 13 + Ace)
  {
    RankCount(h, Ace);
    RankCount(h, King);
    assert Ranks(h)[..3] == [Ace, King, Ace];
    assert h[2].suit != h[0].suit;
    TwoPairInScanOrder(h, Ace, King, 3);
  }

  /** The program compares the two hands and reports that the first wins:
      RoyalFlush against TwoPair gives 9 - 2. */
  lemma CommandLineComparison(h1: Hand, h2: Hand)
    requires RoyalHearts(h1) && AcesAndKings(h2)
    ensures CompareHands(h1, h2) == 7
  {
    RoyalHeartsIsRoyal(h1);
    AcesAndKingsIsTwoPair(h2);
  }

  /** Three Twos and two Fives: not a full house, because the triple is of
      Twos, so three of a kind valued 0. */
  lemma TwosOverFives(h: Hand)
    requires |h| == 5 && h[0] == Card(Spades, Two) && h[1] == Card(Hearts, Two) && h[2] == Card(Diamonds, Two)
    requires h[3] == Card(Spades, Five) && h[4] == Card(Hearts, Five)
    ensures EvaluateHand(h) == Evaluation(ThreeOfAKind, Two)
  {
    RankCount(h, Two);
    RankCount(h, Five);
    assert h[1].suit != h[0].suit;
    TwosBreakFullHouse(h, Two, Five);
  }
}
