/** The per-rank and per-suit tallies the detectors keep in Go maps.

    A tally over a sequence of values is modelled by the multiset of that
    sequence. `Completed` lists the values whose k-th occurrence has been
    seen, in the order in which those occurrences appear: it is what a
    left-to-right scan observes when it bumps a counter per value and reacts
    as soon as a counter reaches k. */
module Counting {

  /** Reading a Go map: a missing key reads as zero. */
  function Lookup(m: map<int, int>, x: int): int
  {
    if x in m then m[x] else 0
  }

  /** `m` tallies `xs`: every key reads as its number of occurrences. */
  ghost predicate Tallies(m: map<int, int>, xs: seq<int>)
  {
    forall x :: Lookup(m, x) == multiset(xs)[x]
  }

  /** The values of `xs` that occur at least k times, each listed once, in
      the order in which their k-th occurrence appears in `xs`. */
  function Completed(xs: seq<int>, k: nat): (cs: seq<int>)
    requires k > 0
    ensures forall x :: x in cs <==> multiset(xs)[x] >= k
    ensures forall i, j :: 0 <= i < j < |cs| ==> cs[i] != cs[j]
    decreases |xs|
  {
    if xs == [] then []
    else
      var last := xs[|xs| - 1];
      assert xs == xs[..|xs| - 1] + [last];
      Completed(xs[..|xs| - 1], k) + (if multiset(xs)[last] == k then [last] else [])
  }

  /** One more element scanned: its counter goes up by one, and the value is
      appended to `Completed` exactly when its counter reaches k. */
  lemma CompletedStep(xs: seq<int>, i: nat, k: nat)
    requires i < |xs| && k > 0
    ensures multiset(xs[..i + 1]) == multiset(xs[..i]) + multiset{xs[i]}
    ensures Completed(xs[..i + 1], k)
         == Completed(xs[..i], k) + (if multiset(xs[..i + 1])[xs[i]] == k then [xs[i]] else [])
  {
    var p := xs[..i + 1];
    assert p[..|p| - 1] == xs[..i];
    assert p == xs[..i] + [xs[i]];
  }

  /** What a prefix has completed, the whole sequence has completed first. */
  lemma {:induction false} CompletedPrefix(xs: seq<int>, j: nat, k: nat)
    requires j <= |xs| && k > 0
    ensures Completed(xs[..j], k) <= Completed(xs, k)
    decreases |xs| - j
  {
    if j == |xs| {
      assert xs[..j] == xs;
    } else {
      var front := xs[..|xs| - 1];
      assert front[..j] == xs[..j];
      CompletedPrefix(front, j, k);
    }
  }

  /** Bumping the counter of the next element keeps the map a tally of the scanned prefix. */
  lemma TallyStep(m: map<int, int>, xs: seq<int>, i: nat)
    requires i < |xs| && Tallies(m, xs[..i])
    ensures Tallies(m[xs[i] := Lookup(m, xs[i]) + 1], xs[..i + 1])
  {
    assert xs[..i + 1] == xs[..i] + [xs[i]];
  }

  /** `Completed` is in completion order: for any two entries, some prefix of
      `xs` has completed the earlier one and not yet the later one. */
  lemma {:induction false} CompletedOrder(xs: seq<int>, k: nat, i: nat, j: nat)
    requires k > 0 && i < j < |Completed(xs, k)|
    ensures exists p :: 0 <= p <= |xs|
              && multiset(xs[..p])[Completed(xs, k)[i]] >= k
              && multiset(xs[..p])[Completed(xs, k)[j]] < k
    decreases |xs|
  {
    var cs := Completed(xs, k);
    var front := xs[..|xs| - 1];
    var cf := Completed(front, k);
    assert cs[..|cf|] == cf;
    if j < |cf| {
      CompletedOrder(front, k, i, j);
      var p :| 0 <= p <= |front| && multiset(front[..p])[cf[i]] >= k && multiset(front[..p])[cf[j]] < k;
      assert front[..p] == xs[..p];
    } else {
      assert cs[i] == cf[i] && cs[i] in cf;
      assert cs[j] !in cf;
      assert xs[..|xs| - 1] == front;
    }
  }

  /** The converse of `CompletedOrder`: when some prefix has completed x and
      not yet y, and y is completed in the end, x comes before y. */
  lemma CompletedBefore(xs: seq<int>, k: nat, p: nat, x: int, y: int)
    requires k > 0 && p <= |xs| && multiset(xs)[y] >= k
    requires multiset(xs[..p])[x] >= k && multiset(xs[..p])[y] < k
    ensures exists i, j :: 0 <= i < j < |Completed(xs, k)| && Completed(xs, k)[i] == x && Completed(xs, k)[j] == y
  {
    var c, cs := Completed(xs[..p], k), Completed(xs, k);
    CompletedPrefix(xs, p, k);
    assert x in c && y !in c && y in cs;
    var i :| 0 <= i < |c| && c[i] == x;
    var j :| 0 <= j < |cs| && cs[j] == y;
    assert forall t :: 0 <= t < |c| ==> cs[t] == c[t];
    assert i < |c| <= j;
    assert cs[i] == x;
  }

  /** Two different values cannot together occur more often than the sequence is long. */
  lemma {:induction false} TwoCountsBound(xs: seq<int>, a: int, b: int)
    requires a != b
    ensures multiset(xs)[a] + multiset(xs)[b] <= |xs|
  {
    if xs != [] {
      assert xs == [xs[0]] + xs[1..];
      TwoCountsBound(xs[1..], a, b);
    }
  }

  /** Three different values cannot together occur more often than the sequence is long. */
  lemma {:induction false} ThreeCountsBound(xs: seq<int>, a: int, b: int, c: int)
    requires a != b && a != c && b != c
    ensures multiset(xs)[a] + multiset(xs)[b] + multiset(xs)[c] <= |xs|
  {
    if xs != [] {
      assert xs == [xs[0]] + xs[1..];
      ThreeCountsBound(xs[1..], a, b, c);
    }
  }

  /** A value fills the whole sequence exactly when every element is that value. */
  lemma {:induction false} FullCount(xs: seq<int>, x: int)
    ensures multiset(xs)[x] >= |xs| <==> forall i :: 0 <= i < |xs| ==> xs[i] == x
  {
    if xs != [] {
      var tail := xs[1..];
      assert xs == [xs[0]] + tail;
      FullCount(tail, x);
      TwoCountsBound(tail, x, x + 1);
      assert (forall i :: 0 <= i < |xs| ==> xs[i] == x)
         <==> xs[0] == x && forall i :: 0 <= i < |tail| ==> tail[i] == x;
    }
  }

  /** One step of a full scan: bumping the counter of the next value keeps
      the tally, and appends that value to the completed ones exactly when its
      counter reaches k. */
  lemma CountStep(m: map<int, int>, xs: seq<int>, i: nat, k: nat)
    requires i < |xs| && k > 0 && Tallies(m, xs[..i])
    ensures var m' := m[xs[i] := Lookup(m, xs[i]) + 1];
            && Tallies(m', xs[..i + 1])
            && Completed(xs[..i + 1], k) == Completed(xs[..i], k) + (if m'[xs[i]] == k then [xs[i]] else [])
  {
    TallyStep(m, xs, i);
    CompletedStep(xs, i, k);
    var m' := m[xs[i] := Lookup(m, xs[i]) + 1];
    assert m'[xs[i]] == multiset(xs[..i + 1])[xs[i]];
  }

  /** One step of a scan that stops as soon as a counter reaches k: while no
      value has been completed yet, bumping the next counter either completes
      the first value of `Completed(xs, k)` or still completes none. */
  lemma ScanStep(m: map<int, int>, xs: seq<int>, i: nat, k: nat)
    requires i < |xs| && k > 0
    requires Tallies(m, xs[..i]) && Completed(xs[..i], k) == []
    ensures var m' := m[xs[i] := Lookup(m, xs[i]) + 1];
            && Tallies(m', xs[..i + 1])
            && (m'[xs[i]] == k ==> |Completed(xs, k)| > 0 && Completed(xs, k)[0] == xs[i])
            && (m'[xs[i]] != k ==> Completed(xs[..i + 1], k) == [])
  {
    TallyStep(m, xs, i);
    CompletedStep(xs, i, k);
    CompletedPrefix(xs, i + 1, k);
    var m' := m[xs[i] := Lookup(m, xs[i]) + 1];
    assert m'[xs[i]] == multiset(xs[..i + 1])[xs[i]];
    if m'[xs[i]] == k {
      assert Completed(xs[..i + 1], k) == [xs[i]];
    }
  }
}
