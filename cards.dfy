/** Cards, hands and hand categories of the five-card poker evaluator.

    Go declares `Suit`, `Rank` and `HandRank` as plain ints with `iota`
    constants; here they are subset types of `int` with the same numbering,
    so that the arithmetic of the tie-break values and of `CompareHands`
    stays the source's. */
module Cards {

  /** Spades, Hearts, Diamonds, Clubs. */
  type Suit = s: int | 0 <= s <= 3

  const Spades: Suit := 0
  const Hearts: Suit := 1
  const Diamonds: Suit := 2
  const Clubs: Suit := 3

  /** Two = 0 up to Ace = 12: the order of the ranks is the order of the ints. */
  type Rank = r: int | 0 <= r <= 12

  const Two: Rank := 0
  const Three: Rank := 1
  const Four: Rank := 2
  const Five: Rank := 3
  const Six: Rank := 4
  const Seven: Rank := 5
  const Eight: Rank := 6
  const Nine: Rank := 7
  const Ten: Rank := 8
  const Jack: Rank := 9
  const Queen: Rank := 10
  const King: Rank := 11
  const Ace: Rank := 12

  datatype Card = Card(suit: Suit, rank: Rank)

  /** A hand is any sequence of cards; the evaluator is meant for five. */
  type Hand = seq<Card>

  /** The ten categories, weakest first. */
  type HandRank = c: int | 0 <= c <= 9

  const HighCard: HandRank := 0
  const OnePair: HandRank := 1
  const TwoPair: HandRank := 2
  const ThreeOfAKind: HandRank := 3
  const Straight: HandRank := 4
  const Flush: HandRank := 5
  const FullHouse: HandRank := 6
  const FourOfAKind: HandRank := 7
  const StraightFlush: HandRank := 8
  const RoyalFlush: HandRank := 9

  /** What every category detector answers: whether the hand belongs to the
      category, and the tie-break value it computed (0 when it does not). */
  datatype Detection = Detection(found: bool, value: int)

  const Missed := Detection(false, 0)

  /** The ranks of the cards, in hand order. */
  function Ranks(h: Hand): seq<int>
  {
    seq(|h|, i requires 0 <= i < |h| => h[i].rank)
  }

  /** The suits of the cards, in hand order. */
  function Suits(h: Hand): seq<int>
  {
    seq(|h|, i requires 0 <= i < |h| => h[i].suit)
  }

  /** The highest rank in the hand, or Two (that is, 0) for an empty hand. */
  function MaxRank(h: Hand): (m: Rank)
    ensures forall i :: 0 <= i < |h| ==> h[i].rank <= m
    ensures |h| > 0 ==> exists i :: 0 <= i < |h| && h[i].rank == m
    ensures |h| == 0 ==> m == Two
    decreases |h|
  {
    if h == [] then Two
    else
      var m := MaxRank(h[..|h| - 1]);
      if h[|h| - 1].rank > m then h[|h| - 1].rank else m
  }

  /** The lowest rank in a non-empty hand. */
  function MinRank(h: Hand): (m: Rank)
    requires |h| > 0
    ensures forall i :: 0 <= i < |h| ==> m <= h[i].rank
    ensures exists i :: 0 <= i < |h| && h[i].rank == m
    decreases |h|
  {
    if |h| == 1 then h[0].rank
    else
      var m := MinRank(h[..|h| - 1]);
      if h[|h| - 1].rank < m then h[|h| - 1].rank else m
  }

  /** Every rank that occurs in the hand is a rank between Two and Ace. */
  lemma RanksInRange(h: Hand)
    ensures forall x :: x in multiset(Ranks(h)) ==> Two <= x <= Ace
  {
    forall x | x in multiset(Ranks(h))
      ensures Two <= x <= Ace
    {
      assert x in Ranks(h);
      var i :| 0 <= i < |h| && Ranks(h)[i] == x;
    }
  }

  /** The lowest and the highest rank both occur in a non-empty hand, and
      every rank that occurs lies between them. */
  lemma RankBounds(h: Hand)
    requires |h| > 0
    ensures MinRank(h) in multiset(Ranks(h)) && MaxRank(h) in multiset(Ranks(h))
    ensures forall x :: x in multiset(Ranks(h)) ==> MinRank(h) <= x <= MaxRank(h)
  {
    var lo :| 0 <= lo < |h| && h[lo].rank == MinRank(h);
    var hi :| 0 <= hi < |h| && h[hi].rank == MaxRank(h);
    assert Ranks(h)[lo] == MinRank(h) && Ranks(h)[hi] == MaxRank(h);
    forall x | x in multiset(Ranks(h))
      ensures MinRank(h) <= x <= MaxRank(h)
    {
      var k :| 0 <= k < |h| && Ranks(h)[k] == x;
    }
  }

  /** The ranks of a five-card hand, card by card. */
  lemma FiveRanks(h: Hand)
    requires |h| == 5
    ensures multiset(Ranks(h)) == multiset{h[0].rank, h[1].rank, h[2].rank, h[3].rank, h[4].rank}
  {
    assert Ranks(h) == [h[0].rank, h[1].rank, h[2].rank, h[3].rank, h[4].rank];
  }

  /** How often a rank occurs in a five-card hand, card by card. */
  lemma RankCount(h: Hand, x: int)
    requires |h| == 5
    ensures multiset(Ranks(h))[x]
         == (if h[0].rank == x then 1 else 0) + (if h[1].rank == x then 1 else 0) + (if h[2].rank == x then 1 else 0)
          + (if h[3].rank == x then 1 else 0) + (if h[4].rank == x then 1 else 0)
  {
    FiveRanks(h);
  }

  /** The lowest and highest ranks are fixed by any two ranks of the hand
      that bound all the others. */
  lemma MinMaxOf(h: Hand, lo: int, hi: int)
    requires |h| > 0 && lo in multiset(Ranks(h)) && hi in multiset(Ranks(h))
    requires forall x :: x in multiset(Ranks(h)) ==> lo <= x <= hi
    ensures MinRank(h) == lo && MaxRank(h) == hi
  {
    RankBounds(h);
  }
}
