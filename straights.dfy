/** Straight detection: `isStraight` and its helper `isConsecutive`.

    `isStraight` copies the ranks into a fresh slice, sorts it, and then
    either treats a hand holding both a Two and an Ace as a candidate wheel
    (A-2-3-4-5, value Five, only the four lowest sorted ranks are checked for
    consecutiveness) or checks all five sorted ranks (value: the highest
    rank). The hand itself is a value and is never changed. */
module Straights {
  import opened Cards
  import opened Sorting

  /** Every element is one more than the one before it. */
  predicate Consecutive(s: seq<int>)
  {
    forall i :: 1 <= i < |s| ==> s[i] == s[i - 1] + 1
  }

  /** The ranks of five consecutive ranks starting at `lo`. */
  function Run(lo: int): multiset<int>
  {
    multiset{lo, lo + 1, lo + 2, lo + 3, lo + 4}
  }

  /** The ranks of the wheel A-2-3-4-5, where the Ace plays low. */
  const Wheel: multiset<int> := multiset{Two, Three, Four, Five, Ace}

  /** What `isStraight` answers for a five-card hand, stated on the hand's
      ranks: with both a Two and an Ace present, a straight exactly when the
      ranks are the wheel, valued Five; otherwise a straight exactly when the
      ranks are five consecutive ranks, valued by the highest rank. */
  function StraightOf(h: Hand): Detection
    requires |h| == 5
  {
    var lo, hi := MinRank(h), MaxRank(h);
    if hi == Ace && lo == Two then Detection(multiset(Ranks(h)) == Wheel, Five)
    else Detection(multiset(Ranks(h)) == Run(lo), hi)
  }

  /** Scans adjacent pairs and stops at the first one that is not a step of one. */
  method IsConsecutive(ranks: seq<int>) returns (b: bool)
    ensures b <==> Consecutive(ranks)
  {
    var i := 1;
    while i < |ranks|
      invariant 1 <= i
      invariant forall k :: 1 <= k < i && k < |ranks| ==> ranks[k] == ranks[k - 1] + 1
    {
      if ranks[i] != ranks[i - 1] + 1 {
        return false;
      }
      i := i + 1;
    }
    return true;
  }

  /** Fills a fresh `ranks` array from the hand, sorts it, then checks the
      wheel case or the general case. */
  method IsStraight(h: Hand) returns (d: Detection)
    requires |h| == 5
    ensures d == StraightOf(h)
  {
    var ranks := new int[|h|];
    for i := 0 to |h|
      invariant ranks[..i] == Ranks(h)[..i]
    {
      ranks[i] := h[i].rank;
    }
    assert ranks[..] == Ranks(h)[..|h|] == Ranks(h);
    SortInts(ranks);
    ghost var sorted := ranks[..];
    SortedEnds(h, sorted);
    var last := ranks.Length - 1;
    assert ranks[0] == sorted[0] == MinRank(h) && ranks[last] == sorted[4] == MaxRank(h);
    if ranks[last] == Ace && ranks[0] == Two {
      var c := IsConsecutive(ranks[..4]);
      WheelSorted(sorted);
      d := Detection(c, Five);
    } else {
      var c := IsConsecutive(ranks[..]);
      RunSorted(sorted);
      d := Detection(c, ranks[last]);
    }
  }

  /** Consecutive elements climb by one from the first. */
  lemma {:induction false} ConsecutiveClimbs(s: seq<int>)
    ensures Consecutive(s) <==> forall i :: 0 <= i < |s| ==> s[i] == s[0] + i
  {
    if |s| > 1 {
      var front := s[..|s| - 1];
      ConsecutiveClimbs(front);
      assert Consecutive(s) <==> Consecutive(front) && s[|s| - 1] == s[|s| - 2] + 1;
      assert (forall i :: 0 <= i < |s| ==> s[i] == s[0] + i)
         <==> (forall i :: 0 <= i < |front| ==> front[i] == front[0] + i) && s[|s| - 1] == s[0] + |s| - 1;
    }
  }

  /** After sorting, the first element is the lowest rank and the last the highest. */
  lemma SortedEnds(h: Hand, s: seq<int>)
    requires |h| == 5 && Sorted(s) && multiset(s) == multiset(Ranks(h))
    ensures |s| == 5 && s[0] == MinRank(h) && s[4] == MaxRank(h)
  {
    assert |s| == |multiset(s)| == |Ranks(h)| == 5;
    var lo, hi := MinRank(h), MaxRank(h);
    var i :| 0 <= i < |h| && h[i].rank == lo;
    var j :| 0 <= j < |h| && h[j].rank == hi;
    assert Ranks(h)[i] == lo && Ranks(h)[j] == hi;
    assert lo in multiset(s) && hi in multiset(s);
    assert s[0] in multiset(Ranks(h)) && s[4] in multiset(Ranks(h));
  }

  /** Five sorted ranks are consecutive exactly when they are a run from the lowest. */
  lemma RunSorted(s: seq<int>)
    requires |s| == 5 && Sorted(s)
    ensures Consecutive(s) <==> multiset(s) == Run(s[0])
  {
    var run := [s[0], s[0] + 1, s[0] + 2, s[0] + 3, s[0] + 4];
    assert multiset(run) == Run(s[0]);
    ConsecutiveClimbs(s);
    if Consecutive(s) {
      assert s == run;
    }
    if multiset(s) == Run(s[0]) {
      SortedUnique(s, run);
    }
  }

  /** Five sorted ranks from a Two to an Ace: the four lowest are consecutive
      exactly when the ranks are the wheel. */
  lemma WheelSorted(s: seq<int>)
    requires |s| == 5 && Sorted(s) && s[0] == Two && s[4] == Ace
    ensures Consecutive(s[..4]) <==> multiset(s) == Wheel
  {
    var wheel := [Two, Three, Four, Five, Ace];
    assert multiset(wheel) == Wheel;
    ConsecutiveClimbs(s[..4]);
    if Consecutive(s[..4]) {
      assert s == wheel;
    }
    if multiset(s) == Wheel {
      SortedUnique(s, wheel);
    }
  }

  /** A Two is present exactly when the lowest rank is Two, and an Ace
      exactly when the highest rank is Ace. */
  lemma PresentEnds(h: Hand)
    requires |h| == 5
    ensures Two in multiset(Ranks(h)) <==> MinRank(h) == Two
    ensures Ace in multiset(Ranks(h)) <==> MaxRank(h) == Ace
  {
    var i :| 0 <= i < |h| && h[i].rank == MinRank(h);
    var j :| 0 <= j < |h| && h[j].rank == MaxRank(h);
    assert Ranks(h)[i] == MinRank(h) && Ranks(h)[j] == MaxRank(h);
    if Two in multiset(Ranks(h)) {
      var k :| 0 <= k < |h| && Ranks(h)[k] == Two;
    }
    if Ace in multiset(Ranks(h)) {
      var k :| 0 <= k < |h| && Ranks(h)[k] == Ace;
    }
  }

  /** The tie value: Five whenever the hand holds both a Two and an Ace, and
      otherwise the highest rank, whether or not the hand is a straight. */
  lemma StraightValue(h: Hand)
    requires |h| == 5
    ensures StraightOf(h).value
         == if Two in multiset(Ranks(h)) && Ace in multiset(Ranks(h)) then Five else MaxRank(h)
  {
    PresentEnds(h);
  }

  /** A five-card hand is a straight exactly when its ranks are the wheel or
      five consecutive ranks. */
  lemma StraightFound(h: Hand)
    requires |h| == 5
    ensures StraightOf(h).found <==> multiset(Ranks(h)) == Wheel || multiset(Ranks(h)) == Run(MinRank(h))
  {
    PresentEnds(h);
    var m := multiset(Ranks(h));
    if m == Wheel {
      assert Two in m && Ace in m;
    }
    if MaxRank(h) == Ace && MinRank(h) == Two {
      assert Ace in m;
      assert Ace !in Run(Two);
    }
  }

  /** A rank held twice rules a straight out. */
  lemma RepeatedRankNotStraight(h: Hand, x: int)
    requires |h| == 5 && multiset(Ranks(h))[x] >= 2
    ensures !StraightOf(h).found
  {
    StraightFound(h);
    RunHasNoRepeats(MinRank(h), x);
    WheelHasNoRepeats(x);
  }

  /** No rank occurs twice in a run. */
  lemma RunHasNoRepeats(lo: int, x: int)
    ensures Run(lo)[x] <= 1
  {
    var d := x - lo;
    assert Run(lo)[x] == (if d == 0 then 1 else 0) + (if d == 1 then 1 else 0) + (if d == 2 then 1 else 0)
                         + (if d == 3 then 1 else 0) + (if d == 4 then 1 else 0);
  }

  /** No rank occurs twice in the wheel. */
  lemma WheelHasNoRepeats(x: int)
    ensures Wheel[x] <= 1
  {
    assert Wheel[x] == (if x == Two then 1 else 0) + (if x == Three then 1 else 0) + (if x == Four then 1 else 0)
                       + (if x == Five then 1 else 0) + (if x == Ace then 1 else 0);
  }

  /** The ranks of a run from `lo` are `lo` to `lo + 4`. */
  lemma RunMembers(lo: int, x: int)
    ensures x in Run(lo) <==> lo <= x <= lo + 4
  {
    var d := x - lo;
    assert Run(lo)[x] == (if d == 0 then 1 else 0) + (if d == 1 then 1 else 0) + (if d == 2 then 1 else 0)
                         + (if d == 3 then 1 else 0) + (if d == 4 then 1 else 0);
  }

  /** The straights valued Ace are exactly the hands holding Ten to Ace. */
  lemma TenToAce(h: Hand)
    requires |h| == 5
    ensures StraightOf(h).found && StraightOf(h).value == Ace <==> multiset(Ranks(h)) == Run(Ten)
  {
    var m := multiset(Ranks(h));
    var lo, hi := MinRank(h), MaxRank(h);
    RankBounds(h);
    if m == Run(Ten) {
      RunMembers(Ten, lo);
      RunMembers(Ten, hi);
      RunMembers(Ten, Ten);
      RunMembers(Ten, Ace);
      assert lo == Ten && hi == Ace;
      assert StraightOf(h) == Detection(true, Ace);
    }
    if StraightOf(h).found && StraightOf(h).value == Ace {
      assert !(hi == Ace && lo == Two);
      assert m == Run(lo) && hi == Ace;
      RunMembers(lo, lo + 4);
      RunMembers(lo, hi);
      assert lo == Ten;
    }
  }
}
