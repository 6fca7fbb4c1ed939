/** The counting detectors of the evaluator: four of a kind, full house,
    flush, three of a kind, two pair, one pair, and the high-card value.

    Each Go detector keeps a `map[Rank]int` (or `map[Suit]int`) tally while it
    scans the hand from left to right. Here each one is a method with that
    loop, proved equal to a function of the hand that the evaluator uses;
    lemmas then say what those functions mean in terms of how often each rank
    or suit occurs. */
module Detectors {
  import opened Cards
  import opened Counting

  datatype Option<T> = None | Some(value: T)

  /** The detection of the first rank, in scan order, whose k-th card is
      reached: isFourOfAKind (k = 4), isThreeOfAKind (k = 3) and isOnePair
      (k = 2) return as soon as some rank's counter reaches k. */
  function RankReaching(h: Hand, k: nat): Detection
    requires k > 0
  {
    var c := Completed(Ranks(h), k);
    if |c| > 0 then Detection(true, c[0]) else Missed
  }

  /** isTwoPair: the ranks whose counter reaches 2 are collected in `pairs`
      in that order; exactly two of them make two pair, valued
      `pairs[1] * 13 + pairs[0]`. */
  function TwoPairOf(h: Hand): Detection
  {
    var pairs := Completed(Ranks(h), 2);
    if |pairs| == 2 then Detection(true, pairs[1] * 13 + pairs[0]) else Missed
  }

  /** isFlush: some suit's counter reaches 5; the value is the high card. */
  function FlushOf(h: Hand): Detection
  {
    if |Completed(Suits(h), 5)| > 0 then Detection(true, MaxRank(h)) else Missed
  }

  /** The lowest rank, from `from` up to Ace, that occurs exactly k times. */
  function RankCounted(h: Hand, k: nat, from: nat): (r: Option<Rank>)
    requires from <= Ace + 1
    ensures r.Some? ==> from <= r.value && multiset(Ranks(h))[r.value] == k
    ensures r.None? ==> forall q :: from <= q <= Ace ==> multiset(Ranks(h))[q] != k
    decreases Ace + 1 - from
  {
    if from > Ace then None
    else if multiset(Ranks(h))[from] == k then Some(from)
    else RankCounted(h, k, from + 1)
  }

  /** isFullHouse on a five-card hand: a rank occurring three times and a
      rank occurring twice, neither of them Two (the source tests both ranks
      against zero, and zero is Two), valued `three * 13 + pair`. */
  function FullHouseOf(h: Hand): Detection
  {
    var three, pair := RankCounted(h, 3, Two), RankCounted(h, 2, Two);
    if three.Some? && pair.Some? && three.value != Two && pair.value != Two
    then Detection(true, three.value * 13 + pair.value)
    else Missed
  }

  /** highCardValue: the running maximum starts at 0 (Two) and is raised by
      every higher card. */
  method HighCardValue(h: Hand) returns (v: int)
    ensures v == MaxRank(h)
  {
    var maxRank := 0;
    for i := 0 to |h|
      invariant forall k :: 0 <= k < i ==> h[k].rank <= maxRank
      invariant maxRank == 0 || exists k :: 0 <= k < i && h[k].rank == maxRank
    {
      if h[i].rank > maxRank {
        maxRank := h[i].rank;
      }
    }
    return maxRank;
  }

  method IsFourOfAKind(h: Hand) returns (d: Detection)
    ensures d == RankReaching(h, 4)
  {
    var rankCount: map<int, int> := map[];
    for i := 0 to |h|
      invariant Tallies(rankCount, Ranks(h)[..i])
      invariant Completed(Ranks(h)[..i], 4) == []
    {
      var rank := h[i].rank;
      ScanStep(rankCount, Ranks(h), i, 4);
      rankCount := rankCount[rank := Lookup(rankCount, rank) + 1];
      if rankCount[rank] == 4 {
        return Detection(true, rank);
      }
    }
    assert Ranks(h)[..|h|] == Ranks(h);
    return Missed;
  }

  method IsThreeOfAKind(h: Hand) returns (d: Detection)
    ensures d == RankReaching(h, 3)
  {
    var rankCount: map<int, int> := map[];
    for i := 0 to |h|
      invariant Tallies(rankCount, Ranks(h)[..i])
      invariant Completed(Ranks(h)[..i], 3) == []
    {
      var rank := h[i].rank;
      ScanStep(rankCount, Ranks(h), i, 3);
      rankCount := rankCount[rank := Lookup(rankCount, rank) + 1];
      if rankCount[rank] == 3 {
        return Detection(true, rank);
      }
    }
    assert Ranks(h)[..|h|] == Ranks(h);
    return Missed;
  }

  method IsOnePair(h: Hand) returns (d: Detection)
    ensures d == RankReaching(h, 2)
  {
    var rankCount: map<int, int> := map[];
    for i := 0 to |h|
      invariant Tallies(rankCount, Ranks(h)[..i])
      invariant Completed(Ranks(h)[..i], 2) == []
    {
      var rank := h[i].rank;
      ScanStep(rankCount, Ranks(h), i, 2);
      rankCount := rankCount[rank := Lookup(rankCount, rank) + 1];
      if rankCount[rank] == 2 {
        return Detection(true, rank);
      }
    }
    assert Ranks(h)[..|h|] == Ranks(h);
    return Missed;
  }

  method IsTwoPair(h: Hand) returns (d: Detection)
    ensures d == TwoPairOf(h)
  {
    var rankCount: map<int, int> := map[];
    var pairs: seq<int> := [];
    for i := 0 to |h|
      invariant Tallies(rankCount, Ranks(h)[..i])
      invariant pairs == Completed(Ranks(h)[..i], 2)
    {
      var rank := h[i].rank;
      CountStep(rankCount, Ranks(h), i, 2);
      rankCount := rankCount[rank := Lookup(rankCount, rank) + 1];
      if rankCount[rank] == 2 {
        pairs := pairs + [rank];
      }
    }
    assert Ranks(h)[..|h|] == Ranks(h);
    if |pairs| == 2 {
      return Detection(true, pairs[1] * 13 + pairs[0]);
    }
    return Missed;
  }

  method IsFlush(h: Hand) returns (d: Detection)
    ensures d == FlushOf(h)
  {
    var suitCount: map<int, int> := map[];
    for i := 0 to |h|
      invariant Tallies(suitCount, Suits(h)[..i])
      invariant Completed(Suits(h)[..i], 5) == []
    {
      var suit := h[i].suit;
      ScanStep(suitCount, Suits(h), i, 5);
      suitCount := suitCount[suit := Lookup(suitCount, suit) + 1];
      if suitCount[suit] == 5 {
        var high := HighCardValue(h);
        return Detection(true, high);
      }
    }
    assert Suits(h)[..|h|] == Suits(h);
    return Missed;
  }

  /** Tallies all ranks, then walks the tally (see `WalkTally`), and accepts
      when both remembered ranks are non-zero. */
  method IsFullHouse(h: Hand) returns (d: Detection)
    requires |h| == 5
    ensures d == FullHouseOf(h)
  {
    var rankCount: map<int, int> := map[];
    for i := 0 to |h|
      invariant Tallies(rankCount, Ranks(h)[..i])
    {
      TallyStep(rankCount, Ranks(h), i);
      rankCount := rankCount[h[i].rank := Lookup(rankCount, h[i].rank) + 1];
    }
    assert Ranks(h)[..|h|] == Ranks(h);
    ghost var m := multiset(Ranks(h));
    assert forall r :: r in rankCount ==> rankCount[r] == m[r] by {
      forall r | r in rankCount ensures rankCount[r] == m[r] {
        assert Lookup(rankCount, r) == m[r];
      }
    }
    assert forall r :: m[r] > 0 ==> r in rankCount by {
      forall r | m[r] > 0 ensures r in rankCount {
        assert Lookup(rankCount, r) == m[r];
      }
    }
    CountShapes(h);
    var threeOfAKindRank, pairRank := WalkTally(rankCount);
    if threeOfAKindRank != 0 && pairRank != 0 {
      d := Detection(true, threeOfAKindRank * 13 + pairRank);
    } else {
      d := Missed;
    }
    FullHouseFromWalk(h, threeOfAKindRank, pairRank);
  }

  /** The `range` loop of isFullHouse: visits the tally's keys in an arbitrary
      order (Go leaves map iteration order unspecified), remembering the last
      rank counted three times and the last counted twice, both starting at
      0. When at most one rank is counted three times, and next to it at most
      one twice, the outcome is the same for every order. */
  method WalkTally(rankCount: map<int, int>) returns (three: int, pair: int)
    requires forall a, b :: a in rankCount && b in rankCount && rankCount[a] == 3 && rankCount[b] == 3 ==> a == b
    requires forall t, p, q ::
               (t in rankCount && p in rankCount && q in rankCount
                && rankCount[t] == 3 && rankCount[p] == 2 && rankCount[q] == 2) ==> p == q
    ensures three == 0 || (three in rankCount && rankCount[three] == 3)
    ensures pair == 0 || (pair in rankCount && rankCount[pair] == 2)
    ensures forall r :: r in rankCount && rankCount[r] == 3 ==> three == r
    ensures forall t, r :: t in rankCount && rankCount[t] == 3 && r in rankCount && rankCount[r] == 2 ==> pair == r
  {
    three, pair := 0, 0;
    var pending := rankCount.Keys;
    while exists r :: r in pending
      invariant pending <= rankCount.Keys
      invariant three == 0 || (three in rankCount && rankCount[three] == 3)
      invariant pair == 0 || (pair in rankCount && rankCount[pair] == 2)
      invariant forall r :: r in rankCount && r !in pending && rankCount[r] == 3 ==> three == r
      invariant forall t, r ::
                  (t in rankCount && rankCount[t] == 3 && r in rankCount && r !in pending
                   && rankCount[r] == 2) ==> pair == r
      decreases pending
    {
      var rank :| rank in pending;
      var count := rankCount[rank];
      if count == 3 {
        three := rank;
      } else if count == 2 {
        pair := rank;
      }
      pending := pending - {rank};
    }
  }

  /** The outcome of the walk over the tally, whatever order it took: the
      last rank seen three times is the only one, and so is, next to it, the
      last rank seen twice. */
  lemma FullHouseFromWalk(h: Hand, three: int, pair: int)
    requires |h| == 5
    requires three == 0 || multiset(Ranks(h))[three] == 3
    requires pair == 0 || multiset(Ranks(h))[pair] == 2
    requires forall r :: multiset(Ranks(h))[r] == 3 ==> three == r
    requires forall t, r :: multiset(Ranks(h))[t] == 3 && multiset(Ranks(h))[r] == 2 ==> pair == r
    ensures FullHouseOf(h) == if three != 0 && pair != 0 then Detection(true, three * 13 + pair) else Missed
  {
    FullHouseByCount(h);
    CountShapes(h);
    RanksInRange(h);
    if three != 0 && pair != 0 {
      assert three in multiset(Ranks(h)) && pair in multiset(Ranks(h));
    }
  }

  /** On five cards, at most one rank occurs three times, and next to a rank
      occurring three times at most one rank occurs twice. */
  lemma CountShapes(h: Hand)
    requires |h| == 5
    ensures forall a, b :: multiset(Ranks(h))[a] == 3 && multiset(Ranks(h))[b] == 3 ==> a == b
    ensures forall t, p, q ::
              (multiset(Ranks(h))[t] == 3 && multiset(Ranks(h))[p] == 2 && multiset(Ranks(h))[q] == 2) ==> p == q
  {
    var m := multiset(Ranks(h));
    forall a, b | m[a] == 3 && m[b] == 3
      ensures a == b
    {
      if a != b { TwoCountsBound(Ranks(h), a, b); }
    }
    forall t, p, q | m[t] == 3 && m[p] == 2 && m[q] == 2
      ensures p == q
    {
      if p != q { ThreeCountsBound(Ranks(h), t, p, q); }
    }
  }

  /** The scan-and-stop detectors find a rank exactly when some rank occurs
      at least k times, and then report a rank that does; otherwise 0. */
  lemma RankReachingByCount(h: Hand, k: nat)
    requires k > 0
    ensures RankReaching(h, k).found <==> exists r :: multiset(Ranks(h))[r] >= k
    ensures RankReaching(h, k).found ==> multiset(Ranks(h))[RankReaching(h, k).value] >= k
    ensures RankReaching(h, k).found ==> Two <= RankReaching(h, k).value <= Ace
    ensures !RankReaching(h, k).found ==> RankReaching(h, k).value == 0
  {
    var c := Completed(Ranks(h), k);
    if r :| multiset(Ranks(h))[r] >= k {
      assert r in c;
    }
    RanksInRange(h);
  }

  /** On five cards a rank occurring four (or three) times is unique, so
      isFourOfAKind and isThreeOfAKind report the same rank whatever the card
      order. */
  lemma RankReachingUnique(h: Hand, k: nat, r: int)
    requires |h| == 5 && k >= 3 && multiset(Ranks(h))[r] >= k
    ensures RankReaching(h, k) == Detection(true, r)
  {
    RankReachingByCount(h, k);
    var v := RankReaching(h, k).value;
    if v != r {
      TwoCountsBound(Ranks(h), r, v);
    }
  }

  /** isOnePair reports the rank whose second card comes first: any other
      repeated rank is still short of its second card at some point where
      the reported one already has two. */
  lemma OnePairFirstCompleted(h: Hand, r: int)
    requires RankReaching(h, 2).found && r != RankReaching(h, 2).value
    requires multiset(Ranks(h))[r] >= 2
    ensures exists p :: 0 <= p <= |h|
              && multiset(Ranks(h)[..p])[RankReaching(h, 2).value] >= 2
              && multiset(Ranks(h)[..p])[r] < 2
  {
    var c := Completed(Ranks(h), 2);
    assert r in c;
    var j :| 0 <= j < |c| && c[j] == r;
    CompletedOrder(Ranks(h), 2, 0, j);
  }

  /** On five cards, at most two ranks occur twice or more. */
  lemma AtMostTwoPairs(h: Hand)
    requires |h| == 5
    ensures |Completed(Ranks(h), 2)| <= 2
  {
    var c := Completed(Ranks(h), 2);
    if |c| >= 3 {
      assert c[0] in c && c[1] in c && c[2] in c;
      ThreeCountsBound(Ranks(h), c[0], c[1], c[2]);
    }
  }

  /** On five cards, isTwoPair holds exactly when two different ranks each
      occur at least twice. */
  lemma TwoPairFound(h: Hand)
    requires |h| == 5
    ensures TwoPairOf(h).found
        <==> exists a, b :: a != b && multiset(Ranks(h))[a] >= 2 && multiset(Ranks(h))[b] >= 2
    ensures !TwoPairOf(h).found ==> TwoPairOf(h).value == 0
  {
    var m := multiset(Ranks(h));
    var c := Completed(Ranks(h), 2);
    AtMostTwoPairs(h);
    if a, b :| a != b && m[a] >= 2 && m[b] >= 2 {
      assert a in c && b in c;
      var i :| 0 <= i < |c| && c[i] == a;
      var j :| 0 <= j < |c| && c[j] == b;
      assert i != j;
    }
    if |c| == 2 {
      assert c[0] in c && c[1] in c;
      assert c[0] != c[1];
    }
  }

  /** The two-pair value is `second * 13 + first`, where `first` is the pair
      whose second card comes earlier in the hand: not necessarily the lower
      or the higher pair. */
  lemma TwoPairValue(h: Hand)
    requires |h| == 5 && TwoPairOf(h).found
    ensures exists first, second ::
              && Two <= first <= Ace && Two <= second <= Ace && first != second
              && multiset(Ranks(h))[first] >= 2 && multiset(Ranks(h))[second] >= 2
              && TwoPairOf(h).value == second * 13 + first
              && exists p :: 0 <= p <= |h|
                   && multiset(Ranks(h)[..p])[first] >= 2 && multiset(Ranks(h)[..p])[second] < 2
  {
    var c := Completed(Ranks(h), 2);
    RanksInRange(h);
    assert c[0] in c && c[1] in c;
    CompletedOrder(Ranks(h), 2, 0, 1);
  }

  /** The two-pair value is fixed by any point of the scan at which one
      pair is complete and the other is not: the earlier pair is `pairs[0]`. */
  lemma TwoPairOrdered(h: Hand, first: int, second: int, p: nat)
    requires |h| == 5 && p <= 5 && first != second
    requires multiset(Ranks(h))[first] >= 2 && multiset(Ranks(h))[second] >= 2
    requires multiset(Ranks(h)[..p])[first] >= 2 && multiset(Ranks(h)[..p])[second] < 2
    ensures TwoPairOf(h) == Detection(true, second * 13 + first)
  {
    var c := Completed(Ranks(h), 2);
    AtMostTwoPairs(h);
    CompletedBefore(Ranks(h), 2, p, first, second);
    var i, j :| 0 <= i < j < |c| && c[i] == first && c[j] == second;
  }

  /** On five cards, isFullHouse holds exactly when some rank other than Two
      occurs three times and some rank other than Two occurs twice; the value
      is `three * 13 + pair`. */
  lemma FullHouseByCount(h: Hand)
    requires |h| == 5
    ensures FullHouseOf(h).found
        <==> exists t, p :: t != Two && p != Two && multiset(Ranks(h))[t] == 3 && multiset(Ranks(h))[p] == 2
    ensures FullHouseOf(h).found ==>
              forall t, p :: multiset(Ranks(h))[t] == 3 && multiset(Ranks(h))[p] == 2
                ==> FullHouseOf(h).value == t * 13 + p
    ensures !FullHouseOf(h).found ==> FullHouseOf(h).value == 0
  {
    CountShapes(h);
    var three, pair := RankCounted(h, 3, Two), RankCounted(h, 2, Two);
    if t, p :| t != Two && p != Two && multiset(Ranks(h))[t] == 3 && multiset(Ranks(h))[p] == 2 {
      RanksInRange(h);
      assert t in multiset(Ranks(h)) && p in multiset(Ranks(h));
      assert three.Some? && pair.Some?;
    }
  }

  /** The full-house value for given three-of and pair ranks. */
  lemma FullHouseDetected(h: Hand, t: int, p: int)
    requires |h| == 5 && t != Two && p != Two
    requires multiset(Ranks(h))[t] == 3 && multiset(Ranks(h))[p] == 2
    ensures FullHouseOf(h) == Detection(true, t * 13 + p)
  {
    FullHouseByCount(h);
  }

  /** isFullHouse never accepts a triple of Twos or a pair of Twos: rank
      Two is also its "not found" answer. */
  lemma TwosNeverFullHouse(h: Hand, t: int, p: int)
    requires |h| == 5 && (t == Two || p == Two)
    requires multiset(Ranks(h))[t] == 3 && multiset(Ranks(h))[p] == 2
    ensures !FullHouseOf(h).found
  {
    FullHouseByCount(h);
    if FullHouseOf(h).found {
      var t', p' :| t' != Two && p' != Two && multiset(Ranks(h))[t'] == 3 && multiset(Ranks(h))[p'] == 2;
      CountShapes(h);
    }
  }

  /** On five cards, isFlush holds exactly when all cards share the first
      card's suit, and its value is then the highest rank. */
  lemma FlushByCount(h: Hand)
    requires |h| == 5
    ensures FlushOf(h).found <==> forall i :: 0 <= i < |h| ==> h[i].suit == h[0].suit
    ensures FlushOf(h).value == if FlushOf(h).found then MaxRank(h) else 0
  {
    var c := Completed(Suits(h), 5);
    FullCount(Suits(h), h[0].suit);
    if |c| > 0 {
      var suit := c[0];
      assert suit in c;
      FullCount(Suits(h), suit);
      forall i | 0 <= i < |h|
        ensures h[i].suit == h[0].suit
      {
        assert Suits(h)[i] == suit && Suits(h)[0] == suit;
      }
    } else {
      assert h[0].suit !in c;
    }
  }
}
