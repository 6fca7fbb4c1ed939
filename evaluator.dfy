/** The evaluator proper: `isStraightFlush`, `isRoyalFlush`, `evaluateHand`
    and `CompareHands`. These are straight-line compositions of the
    detectors, so they are functions over the detectors' specifications. */
module Evaluator {
  import opened Cards
  import opened Counting
  import opened Straights
  import opened Detectors

  /** What `evaluateHand` returns: the category and its tie-break value. */
  datatype Evaluation = Evaluation(category: HandRank, value: int)

  /** isStraightFlush: a straight that is also a flush, valued as the straight. */
  function StraightFlushOf(h: Hand): (d: Detection)
    requires |h| == 5
    ensures d.found <==> StraightOf(h).found && FlushOf(h).found
    ensures d.value == if d.found then StraightOf(h).value else 0
  {
    var straight := StraightOf(h);
    if straight.found && FlushOf(h).found then Detection(true, straight.value) else Missed
  }

  /** isRoyalFlush: a straight flush whose value is Ace. */
  function RoyalFlushOf(h: Hand): (d: Detection)
    requires |h| == 5
    ensures d.found <==> StraightFlushOf(h).found && StraightFlushOf(h).value == Ace
    ensures d.value == if d.found then Ace else 0
  {
    var sf := StraightFlushOf(h);
    if sf.found && sf.value == Ace then Detection(true, sf.value) else Missed
  }

  /** What each detector of `evaluateHand` answers for the hand, indexed by
      the category it detects; HighCard always applies, valued by the high
      card. The detectors are pure, so computing them all gives the same
      answers as Go's cascade, which stops at the first that accepts. */
  function Detections(h: Hand): (ds: seq<Detection>)
    requires |h| == 5
    ensures |ds| == 10 && ds[HighCard].found
  {
    [Detection(true, MaxRank(h)), RankReaching(h, 2), TwoPairOf(h), RankReaching(h, 3), StraightOf(h),
     FlushOf(h), FullHouseOf(h), RankReaching(h, 4), StraightFlushOf(h), RoyalFlushOf(h)]
  }

  /** evaluateHand: tries the categories from RoyalFlush down and answers
      with the first whose detector accepts, together with that detector's
      value. */
  function EvaluateHand(h: Hand): (e: Evaluation)
    requires |h| == 5
    ensures Detections(h)[e.category].found && e.value == Detections(h)[e.category].value
    ensures forall c: HandRank :: e.category < c ==> !Detections(h)[c].found
  {
    FirstFrom(Detections(h), RoyalFlush)
  }

  /** The cascade of `evaluateHand` from category `c` downwards. */
  function FirstFrom(ds: seq<Detection>, c: HandRank): (e: Evaluation)
    requires |ds| == 10 && ds[HighCard].found
    ensures e.category <= c
    ensures ds[e.category].found && e.value == ds[e.category].value
    ensures forall c': HandRank :: e.category < c' <= c ==> !ds[c'].found
    decreases c
  {
    if ds[c].found || c == HighCard then Evaluation(c, ds[c].value) else FirstFrom(ds, c - 1)
  }

  /** One evaluation beats another: a higher category, or the same category
      and a higher tie-break value. */
  predicate Outranks(e1: Evaluation, e2: Evaluation)
  {
    e1.category > e2.category || (e1.category == e2.category && e1.value > e2.value)
  }

  /** CompareHands: the difference of the categories when they differ, and
      otherwise the difference of the values; positive when the first hand
      wins, negative when the second does, zero on a tie. */
  function CompareHands(h1: Hand, h2: Hand): (r: int)
    requires |h1| == 5 && |h2| == 5
    ensures r > 0 <==> Outranks(EvaluateHand(h1), EvaluateHand(h2))
    ensures r < 0 <==> Outranks(EvaluateHand(h2), EvaluateHand(h1))
    ensures r == 0 <==> EvaluateHand(h1) == EvaluateHand(h2)
  {
    var e1, e2 := EvaluateHand(h1), EvaluateHand(h2);
    if e1.category != e2.category then e1.category - e2.category
    else e1.value - e2.value
  }

  /** The ordering of `CompareHands` is a strict total order on evaluations:
      swapping the hands negates the answer, and wins chain. */
  lemma CompareAntisymmetric(h1: Hand, h2: Hand)
    requires |h1| == 5 && |h2| == 5
    ensures CompareHands(h1, h2) == -CompareHands(h2, h1)
    ensures CompareHands(h1, h1) == 0
  {
  }

  lemma CompareTransitive(h1: Hand, h2: Hand, h3: Hand)
    requires |h1| == 5 && |h2| == 5 && |h3| == 5
    requires CompareHands(h1, h2) > 0 && CompareHands(h2, h3) > 0
    ensures CompareHands(h1, h3) > 0
  {
  }

  /** Every tie-break value lies between 0 and `Ace * 13 + Ace`. */
  lemma ValueInRange(h: Hand)
    requires |h| == 5
    ensures 0 <= EvaluateHand(h).value <= Ace * 13 + Ace
  {
    var e := EvaluateHand(h);
    if e.category == TwoPair {
      assert e.value == TwoPairOf(h).value;
      TwoPairValue(h);
    } else if e.category == FourOfAKind {
      assert e.value == RankReaching(h, 4).value;
      RankReachingByCount(h, 4);
    } else if e.category == ThreeOfAKind {
      assert e.value == RankReaching(h, 3).value;
      RankReachingByCount(h, 3);
    } else if e.category == OnePair {
      assert e.value == RankReaching(h, 2).value;
      RankReachingByCount(h, 2);
    }
  }

  /** The category evaluateHand settles on is the one whose detector
      accepts while every detector above it rejects. */
  lemma CategoryIs(h: Hand, c: HandRank)
    requires |h| == 5 && Detections(h)[c].found
    requires forall c': HandRank :: c < c' ==> !Detections(h)[c'].found
    ensures EvaluateHand(h) == Evaluation(c, Detections(h)[c].value)
  {
    var e := EvaluateHand(h);
    assert !(e.category < c);
  }

  /** A straight flush is exactly one suit together with the wheel or five
      consecutive ranks. */
  lemma StraightFlushByCount(h: Hand)
    requires |h| == 5
    ensures StraightFlushOf(h).found
        <==> (forall i :: 0 <= i < |h| ==> h[i].suit == h[0].suit)
             && (multiset(Ranks(h)) == Wheel || multiset(Ranks(h)) == Run(MinRank(h)))
  {
    FlushByCount(h);
    StraightFound(h);
  }

  /** A royal flush is exactly Ten to Ace in one suit. */
  lemma RoyalFlushIff(h: Hand)
    requires |h| == 5
    ensures EvaluateHand(h).category == RoyalFlush
        <==> (forall i :: 0 <= i < |h| ==> h[i].suit == h[0].suit) && multiset(Ranks(h)) == Run(Ten)
    ensures EvaluateHand(h).category == RoyalFlush ==> EvaluateHand(h).value == Ace
  {
    var e := EvaluateHand(h);
    assert e.category == RoyalFlush <==> Detections(h)[RoyalFlush].found;
    FlushByCount(h);
    TenToAce(h);
  }

  /** The wheel in one suit is a straight flush valued Five, not a royal flush. */
  lemma SuitedWheel(h: Hand)
    requires |h| == 5 && multiset(Ranks(h)) == Wheel
    requires forall i :: 0 <= i < |h| ==> h[i].suit == h[0].suit
    ensures EvaluateHand(h) == Evaluation(StraightFlush, Five)
  {
    FlushByCount(h);
    StraightFound(h);
    StraightValue(h);
    assert Two in multiset(Ranks(h)) && Ace in multiset(Ranks(h));
    CategoryIs(h, StraightFlush);
  }

  /** Four cards of one rank make four of a kind valued by that rank. */
  lemma FourOfAKindClassified(h: Hand, r: int)
    requires |h| == 5 && multiset(Ranks(h))[r] == 4
    ensures EvaluateHand(h) == Evaluation(FourOfAKind, r)
  {
    RepeatedRankNotStraight(h, r);
    RankReachingUnique(h, 4, r);
    CategoryIs(h, FourOfAKind);
  }

  /** Three cards of one rank and two of another, neither of them Two, make
      a full house valued `three * 13 + pair`. */
  lemma FullHouseClassified(h: Hand, t: int, p: int)
    requires |h| == 5 && t != Two && p != Two
    requires multiset(Ranks(h))[t] == 3 && multiset(Ranks(h))[p] == 2
    ensures EvaluateHand(h) == Evaluation(FullHouse, t * 13 + p)
  {
    assert !StraightOf(h).found by { RepeatedRankNotStraight(h, t); }
    assert !RankReaching(h, 4).found by { NoFourBesideFullHouse(h, t, p); }
    assert FullHouseOf(h) == Detection(true, t * 13 + p) by { FullHouseDetected(h, t, p); }
    var e := EvaluateHand(h);
    assert !(e.category < FullHouse);
  }

  /** A triple and a pair where either rank is Two, in a hand that is not
      all one suit, are not a full house: the hand falls through to three of
      a kind, valued by the triple's rank. */
  lemma TwosBreakFullHouse(h: Hand, t: int, p: int)
    requires |h| == 5 && (t == Two || p == Two)
    requires multiset(Ranks(h))[t] == 3 && multiset(Ranks(h))[p] == 2
    requires exists i :: 0 <= i < |h| && h[i].suit != h[0].suit
    ensures EvaluateHand(h) == Evaluation(ThreeOfAKind, t)
  {
    assert !FlushOf(h).found by { FlushByCount(h); }
    assert !StraightOf(h).found by { RepeatedRankNotStraight(h, t); }
    assert !RankReaching(h, 4).found by { NoFourBesideFullHouse(h, t, p); }
    assert !FullHouseOf(h).found by { TwosNeverFullHouse(h, t, p); }
    assert RankReaching(h, 3) == Detection(true, t) by { RankReachingUnique(h, 3, t); }
    var e := EvaluateHand(h);
    assert !(e.category < ThreeOfAKind);
  }

  /** Next to three cards of one rank and two of another, no rank has four. */
  lemma NoFourBesideFullHouse(h: Hand, t: int, p: int)
    requires |h| == 5 && multiset(Ranks(h))[t] == 3 && multiset(Ranks(h))[p] == 2
    ensures !RankReaching(h, 4).found
  {
    RankReachingByCount(h, 4);
    if RankReaching(h, 4).found {
      TwoCountsBound(Ranks(h), RankReaching(h, 4).value, t);
    }
  }

  /** Two ranks held twice each, in a hand that is not all one suit, make
      two pair, valued as isTwoPair values it. */
  lemma TwoPairClassified(h: Hand, a: int, b: int)
    requires |h| == 5 && a != b && multiset(Ranks(h))[a] == 2 && multiset(Ranks(h))[b] == 2
    requires exists i :: 0 <= i < |h| && h[i].suit != h[0].suit
    ensures EvaluateHand(h) == Evaluation(TwoPair, TwoPairOf(h).value)
  {
    assert !FlushOf(h).found by { FlushByCount(h); }
    assert !StraightOf(h).found by { RepeatedRankNotStraight(h, a); }
    assert !RankReaching(h, 4).found && !RankReaching(h, 3).found && !FullHouseOf(h).found by {
      NoTripleBesideTwoPairs(h, a, b);
      FullHouseByCount(h);
    }
    assert TwoPairOf(h).found by { TwoPairFound(h); }
    var e := EvaluateHand(h);
    assert !(e.category < TwoPair);
  }

  /** Two pair, valued by scan order: the pair whose second card comes
      first is `pairs[0]` and counts in units, the other counts in thirteens. */
  lemma TwoPairInScanOrder(h: Hand, first: int, second: int, p: nat)
    requires |h| == 5 && p <= 5 && first != second
    requires multiset(Ranks(h))[first] == 2 && multiset(Ranks(h))[second] == 2
    requires multiset(Ranks(h)[..p])[first] == 2 && multiset(Ranks(h)[..p])[second] < 2
    requires exists i :: 0 <= i < |h| && h[i].suit != h[0].suit
    ensures EvaluateHand(h) == Evaluation(TwoPair, second * 13 + first)
  {
    assert TwoPairOf(h).value == second * 13 + first by { TwoPairOrdered(h, first, second, p); }
    TwoPairClassified(h, first, second);
  }

  /** A hand whose first two cards are a pair of a and whose next two are a
      pair of b, with a different fifth rank and not all one suit, is two
      pair valued `b * 13 + a`. */
  lemma PairsInFront(h: Hand, a: Rank, b: Rank)
    requires |h| == 5 && a != b
    requires h[0].rank == a && h[1].rank == a && h[2].rank == b && h[3].rank == b
    requires h[4].rank != a && h[4].rank != b
    requires exists i :: 0 <= i < |h| && h[i].suit != h[0].suit
    ensures EvaluateHand(h) == Evaluation(TwoPair, b * 13 + a)
  {
    RankCount(h, a);
    RankCount(h, b);
    assert Ranks(h)[..2] == [a, a];
    TwoPairInScanOrder(h, a, b, 2);
  }

  /** The same five cards can score differently in another order: a
      hand a-a-b-b-c is valued `b * 13 + a`, and the same cards rearranged
      as b-b-a-a-c are valued `a * 13 + b`, so comparing the second with the
      first gives `12 * (a - b)`, never zero. */
  lemma TwoPairOrderMatters(h: Hand, a: Rank, b: Rank)
    requires |h| == 5 && a != b
    requires h[0].rank == a && h[1].rank == a && h[2].rank == b && h[3].rank == b
    requires h[4].rank != a && h[4].rank != b
    requires exists i :: 0 <= i < |h| && h[i].suit != h[0].suit
    ensures var swapped := [h[2], h[3], h[0], h[1], h[4]];
            && EvaluateHand(h) == Evaluation(TwoPair, b * 13 + a)
            && EvaluateHand(swapped) == Evaluation(TwoPair, a * 13 + b)
            && CompareHands(swapped, h) == 12 * (a - b)
  {
    var swapped := [h[2], h[3], h[0], h[1], h[4]];
    MixedSuitsReordered(h);
    PairsInFront(h, a, b);
    PairsInFront(swapped, b, a);
  }

  /** Rearranging the cards keeps a hand that is not all one suit so. */
  lemma MixedSuitsReordered(h: Hand)
    requires |h| == 5 && exists i :: 0 <= i < |h| && h[i].suit != h[0].suit
    ensures var swapped := [h[2], h[3], h[0], h[1], h[4]];
            exists i :: 0 <= i < |swapped| && swapped[i].suit != swapped[0].suit
  {
    var swapped := [h[2], h[3], h[0], h[1], h[4]];
    var i :| 0 <= i < |h| && h[i].suit != h[0].suit;
    if h[2].suit != h[0].suit {
      assert swapped[2].suit != swapped[0].suit;
    } else {
      var j := if i == 0 then 2 else if i == 1 then 3 else if i == 2 then 0 else if i == 3 then 1 else 4;
      assert swapped[j] == h[i];
    }
  }

  /** Next to two ranks held twice each, no rank is held three times or more. */
  lemma NoTripleBesideTwoPairs(h: Hand, a: int, b: int)
    requires |h| == 5 && a != b && multiset(Ranks(h))[a] == 2 && multiset(Ranks(h))[b] == 2
    ensures !RankReaching(h, 4).found && !RankReaching(h, 3).found
    ensures forall t :: multiset(Ranks(h))[t] != 3
  {
    RankReachingByCount(h, 4);
    RankReachingByCount(h, 3);
    forall t | multiset(Ranks(h))[t] >= 3
      ensures false
    {
      ThreeCountsBound(Ranks(h), t, a, b);
    }
  }

  /** A hand is left at HighCard exactly when its five ranks are all
      different and it is neither a straight nor a flush; it is then valued
      by its highest rank. */
  lemma HighCardIff(h: Hand)
    requires |h| == 5
    ensures EvaluateHand(h).category == HighCard
        <==> (forall x :: multiset(Ranks(h))[x] <= 1) && !StraightOf(h).found && !FlushOf(h).found
    ensures EvaluateHand(h).category == HighCard ==> EvaluateHand(h).value == MaxRank(h)
  {
    var e := EvaluateHand(h);
    var m := multiset(Ranks(h));
    if e.category == HighCard {
      assert !RankReaching(h, 2).found && !StraightOf(h).found && !FlushOf(h).found;
      RankReachingByCount(h, 2);
    }
    if (forall x :: m[x] <= 1) && !StraightOf(h).found && !FlushOf(h).found {
      assert !RankReaching(h, 2).found && !RankReaching(h, 3).found && !RankReaching(h, 4).found by {
        RankReachingByCount(h, 2);
        RankReachingByCount(h, 3);
        RankReachingByCount(h, 4);
      }
      assert !TwoPairOf(h).found && !FullHouseOf(h).found by {
        TwoPairFound(h);
        FullHouseByCount(h);
      }
      assert !(HighCard < e.category);
    }
  }
}
