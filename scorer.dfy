/**
  The `Scorer` class of cribbage.py: the scanning loops it runs over a
  sorted hand, each proved to compute the matching function of
  `ScoreRules`, and `score` itself.
*/
module Scorer {
  import opened Results
  import opened Cards
  import opened Combinatorics
  import opened CardSort
  import opened Hands
  import opened ScoreRules

  /** `is_run`: false below three cards, otherwise checks each step of the ranks. */
  method IsRun(hand: seq<Card>) returns (b: bool)
    ensures b == ConsecutiveRanks(hand)
  {
    if |hand| < 3 {
      return false;
    }
    var ranks := seq(|hand|, k requires 0 <= k < |hand| => hand[k].rank);
    var i := 0;
    while i < |ranks| - 1
      invariant 0 <= i <= |ranks| - 1
      invariant forall k :: 0 <= k < i ==> hand[k + 1].rank - hand[k].rank == 1
    {
      if ranks[i + 1] - ranks[i] != 1 {
        return false;
      }
      i := i + 1;
    }
    return true;
  }

  /** `has_run`: stops at the first three neighbouring cards that form a run. */
  method HasRun(hand: seq<Card>) returns (b: bool)
    ensures b == HasAdjacentRun(hand)
  {
    var i := 0;
    while i < |hand| - 2
      invariant 0 <= i && (i > 0 ==> i <= |hand| - 2)
      invariant forall k: nat :: k < i ==> !RunAt(hand, k)
    {
      var isRun := IsRun(hand[i..i + 3]);
      if isRun {
        assert RunAt(hand, i);
        return true;
      }
      i := i + 1;
    }
    return false;
  }

  /** `has_pairs`: stops at the first two neighbouring cards of equal rank. */
  method HasPairs(hand: seq<Card>) returns (b: bool)
    ensures b == HasAdjacentPair(hand)
  {
    var i := 0;
    while i < |hand| - 1
      invariant 0 <= i && (i > 0 ==> i <= |hand| - 1)
      invariant forall k :: 0 <= k < i ==> hand[k].rank != hand[k + 1].rank
    {
      if hand[i].rank == hand[i + 1].rank {
        return true;
      }
      i := i + 1;
    }
    return false;
  }

  /** A list with no run in it has no run of any size. */
  lemma {:induction false} NoRunNoCount(q: seq<seq<Card>>, len: nat)
    requires LongestRun(q) == 0
    ensures CountRunsOfSize(q, len) == 0
  {
    if q != [] {
      NoRunNoCount(q[1..], len);
    }
  }

  /** Members in front of `j` no longer than the longest run after `j` do not change the longest run. */
  lemma {:induction false} LongestRunFromSuffix(q: seq<seq<Card>>, j: nat)
    requires j <= |q|
    requires forall k :: 0 <= k < j ==> |q[k]| <= LongestRun(q[j..])
    ensures LongestRun(q) == LongestRun(q[j..])
  {
    if j > 0 {
      assert q[1..][j - 1..] == q[j..];
      LongestRunFromSuffix(q[1..], j - 1);
    }
  }

  /** Members in front of `j` of another size do not change the count of runs of size `len`. */
  lemma {:induction false} CountRunsFromSuffix(q: seq<seq<Card>>, j: nat, len: nat)
    requires j <= |q|
    requires forall k :: 0 <= k < j ==> |q[k]| != len
    ensures CountRunsOfSize(q, len) == CountRunsOfSize(q[j..], len)
  {
    if j > 0 {
      assert q[1..][j - 1..] == q[j..];
      CountRunsFromSuffix(q[1..], j - 1, len);
    }
  }

  lemma RepeatTotal(v: nat, n: nat)
    ensures Sum(Repeat(v, n)) == n * v
  {
    var r := Repeat(v, n);
    assert |r| == n && forall k :: 0 <= k < n ==> r[k] == v by {
      RepeatShape(v, n);
    }
    SumConstant(r, v);
  }

  lemma {:induction false} RepeatShape(v: nat, n: nat)
    ensures |Repeat(v, n)| == n && forall k :: 0 <= k < n ==> Repeat(v, n)[k] == v
  {
    if n > 0 {
      RepeatShape(v, n - 1);
    }
  }

  /** Sizes never decrease along `q`. */
  predicate Graded(q: seq<seq<Card>>)
  {
    forall i, j :: 0 <= i < j < |q| ==> |q[i]| <= |q[j]|
  }

  /**
    The runs section of `score`: walks the 3- to 5-card combinations from the
    last (largest) one back, records the length of every run, and stops at
    the first combination of another length once a run has been recorded.
  */
  method CollectRuns(all: seq<Card>) returns (runs: seq<nat>)
    ensures Sum(runs) == LongestRunsTotal(all)
    ensures forall k :: 0 <= k < |runs| ==> runs[k] == LongestRun(RangedPowerset(all, 3, 5))
  {
    var q := RangedPowerset(all, 3, 5);
    RangedPowersetGraded(all, 3, 5);
    runs := RunsFromLargest(q);
  }

  /** The loop of `CollectRuns`, over any list whose sizes never decrease. */
  method RunsFromLargest(q: seq<seq<Card>>) returns (runs: seq<nat>)
    requires Graded(q)
    ensures Sum(runs) == Sum(Repeat(LongestRun(q), CountRunsOfSize(q, LongestRun(q))))
    ensures forall k :: 0 <= k < |runs| ==> runs[k] == LongestRun(q)
  {
    runs := [];
    var prevLen := 0;
    var i := |q|;
    while i > 0
      invariant 0 <= i <= |q|
      invariant i < |q| ==> prevLen == |q[i]|
      invariant runs == [] ==> LongestRun(q[i..]) == 0
      invariant runs != [] ==>
        i < |q| && LongestRun(q) == prevLen && |runs| == CountRunsOfSize(q[i..], prevLen)
      invariant forall k :: 0 <= k < |runs| ==> runs[k] == prevLen
    {
      var run := q[i - 1];
      var runLen := |run|;
      if runs != [] && runLen != prevLen {
        break;
      }
      assert q[i - 1..] == [run] + q[i..];
      i := i - 1;
      prevLen := runLen;
      var isRun := IsRun(run);
      if isRun {
        if runs == [] {
          NoRunNoCount(q[i + 1..], runLen);
          LongestRunFromSuffix(q, i);
        }
        runs := runs + [runLen];
      }
    }
    var count := CountRunsOfSize(q, LongestRun(q));
    if runs == [] {
      assert q[0..] == q;
      RepeatTotal(0, count);
    } else {
      if i > 0 {
        CountRunsFromSuffix(q, i, prevLen);
      } else {
        assert q[0..] == q;
      }
      RepeatTotal(prevLen, count);
      SumConstant(runs, prevLen);
    }
  }

  /** The pairs section of `score`: counted per rank once `has_pairs` finds a repeat. */
  method PairsSection(all: seq<Card>) returns (pairs: nat)
    ensures pairs == PairPoints(all)
  {
    pairs := 0;
    var hasPairs := HasPairs(all);
    if hasPairs {
      pairs := RankPairSum(all, ACE);
    }
  }

  /** The runs section of `score`: collected only once `has_run` finds three neighbouring cards in a run. */
  method RunsSection(all: seq<Card>) returns (runs: seq<nat>)
    ensures Sum(runs) == RunPoints(all)
  {
    runs := [];
    var hasRun := HasRun(all);
    if hasRun {
      runs := CollectRuns(all);
    }
  }

  /**
    `Scorer.score`: sorts the hand with its starter, then adds up pairs,
    fifteens, runs, flush, nobs and heels.
  */
  method Score(hand: Hand, hasCrib: bool, isCrib: bool) returns (b: Breakdown)
    ensures b == ScoreOf(hand.cards, hand.starter, hasCrib, isCrib)
  {
    assert hand.AllCards() == hand.cards + StarterList(hand.starter);
    var all := SortCards(hand.AllCards());
    b := ScoreSorted(all, hand.starter, hasCrib, isCrib);
  }

  /** The flush section of `score`: in the crib only a five-card flush stands. */
  method FlushSection(all: seq<Card>, isCrib: bool) returns (flushes: nat)
    ensures flushes == CribFlush(FlushPoints(all), isCrib)
  {
    flushes := FlushPoints(all);
    if flushes != 5 && isCrib {
      flushes := 0;
    }
  }

  /** The body of `score` after sorting. */
  method ScoreSorted(all: seq<Card>, starter: Option<Card>, hasCrib: bool, isCrib: bool) returns (b: Breakdown)
    ensures b == ItemsOf(all, starter, hasCrib, isCrib)
  {
    var pairs := PairsSection(all);
    var fifteens := FifteenPoints(all);
    var runs := RunsSection(all);
    var flushes := FlushSection(all, isCrib);
    var heels: seq<nat> := [];
    if starter.Some? {
      heels := [if starter.value.rank == JACK && hasCrib then 2 else 0];
    }
    var nobs := NobsPoints(all, starter, heels);
    b := Tally(pairs, fifteens, Sum(runs), flushes, nobs, Sum(heels));
  }
}
