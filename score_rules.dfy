/**
  What `Scorer.score` (cribbage.py) computes, item by item, stated as
  functions of the sorted list of cards (`sorted(hand.all_cards)`).
  The imperative loops of the scorer are proved against these in module
  `Scorer`.
*/
module ScoreRules {
  import opened Results
  import opened Cards
  import opened Combinatorics
  import opened CardSort

  function Max(a: int, b: int): int
  {
    if a < b then b else a
  }

  function Sum(xs: seq<nat>): nat
  {
    if xs == [] then 0 else xs[0] + Sum(xs[1..])
  }

  lemma {:induction false} SumConstant(xs: seq<nat>, v: nat)
    requires forall k :: 0 <= k < |xs| ==> xs[k] == v
    ensures Sum(xs) == |xs| * v
  {
    if xs != [] {
      SumConstant(xs[1..], v);
    }
  }

  /* ---------------------------------------------------------------- pairs */

  /** `has_pairs` on a sorted list: two neighbouring cards share a rank. */
  predicate HasAdjacentPair(s: seq<Card>)
  {
    exists i :: 0 <= i < |s| - 1 && s[i].rank == s[i + 1].rank
  }

  function CountRank(s: seq<Card>, r: int): nat
  {
    if s == [] then 0 else (if s[0].rank == r then 1 else 0) + CountRank(s[1..], r)
  }

  /** `sum(xrange(1, k))`: 1 + 2 + ... + (k - 1). */
  function Triangle(k: nat): nat
  {
    if k <= 1 then 0 else Triangle(k - 1) + (k - 1)
  }

  /** The points for one rank seen `count` times: `2 * sum(xrange(1, count))` when it repeats. */
  function PairPointsFor(count: nat): nat
  {
    if count > 1 then 2 * Triangle(count) else 0
  }

  /** The pair points of every rank from `r` up to King. */
  function RankPairSum(s: seq<Card>, r: int): nat
    decreases KING + 1 - r
  {
    if r > KING then 0 else PairPointsFor(CountRank(s, r)) + RankPairSum(s, r + 1)
  }

  /** The pairs item: counted per rank, but only when `has_pairs` finds a repeat. */
  function PairPoints(s: seq<Card>): nat
  {
    if HasAdjacentPair(s) then RankPairSum(s, ACE) else 0
  }

  /** Number of two-card selections (by position) whose ranks match. */
  function SameRankPairs(s: seq<Card>): nat
  {
    if s == [] then 0 else CountRank(s[1..], s[0].rank) + SameRankPairs(s[1..])
  }

  /* ------------------------------------------------------------- fifteens */

  function ValueSum(c: seq<Card>): nat
  {
    if c == [] then 0 else Value(c[0]) + ValueSum(c[1..])
  }

  /** Members of `q` whose point values add up to 15. */
  function CountFifteens(q: seq<seq<Card>>): nat
  {
    if q == [] then 0 else (if ValueSum(q[0]) == 15 then 1 else 0) + CountFifteens(q[1..])
  }

  /** The fifteens item: 2 for every combination of 2 to 5 cards adding up to 15. */
  function FifteenPoints(s: seq<Card>): nat
  {
    2 * CountFifteens(RangedPowerset(s, 2, 5))
  }

  /**
    Independent count of the ways to choose `k` of the cards of `s` whose
    values add up to `t`: each card is either taken or left.
  */
  function Ways(s: seq<Card>, k: nat, t: int): nat
  {
    if s == [] then (if k == 0 && t == 0 then 1 else 0)
    else (if k > 0 then Ways(s[1..], k - 1, t - Value(s[0])) else 0) + Ways(s[1..], k, t)
  }

  /* ----------------------------------------------------------------- runs */

  /** `is_run`: at least three cards, each rank one more than the one before. */
  predicate ConsecutiveRanks(c: seq<Card>)
  {
    |c| >= 3 && forall i :: 0 <= i < |c| - 1 ==> c[i + 1].rank - c[i].rank == 1
  }

  /** The three cards from position `i` on form a run. */
  predicate RunAt(s: seq<Card>, i: nat)
  {
    i + 3 <= |s| && ConsecutiveRanks(s[i..i + 3])
  }

  /** `has_run`: some three neighbouring cards of the sorted list form a run. */
  predicate HasAdjacentRun(s: seq<Card>)
  {
    exists i: nat :: i < |s| && RunAt(s, i)
  }

  /** Members of `q` that are runs of exactly `len` cards. */
  function CountRunsOfSize(q: seq<seq<Card>>, len: nat): nat
  {
    if q == [] then 0
    else (if |q[0]| == len && ConsecutiveRanks(q[0]) then 1 else 0) + CountRunsOfSize(q[1..], len)
  }

  /** The size of the longest run among the members of `q`; 0 when there is none. */
  function LongestRun(q: seq<seq<Card>>): nat
  {
    if q == [] then 0
    else Max(if ConsecutiveRanks(q[0]) then |q[0]| else 0, LongestRun(q[1..]))
  }

  /**
    The runs item once the `has_run` gate is passed: the longest run length
    times the number of runs of that length among the 3- to 5-card
    combinations.
  */
  function LongestRunsTotal(s: seq<Card>): nat
  {
    var q := RangedPowerset(s, 3, 5);
    Sum(Repeat(LongestRun(q), CountRunsOfSize(q, LongestRun(q))))
  }

  /** `n` copies of `v`. */
  function Repeat(v: nat, n: nat): seq<nat>
  {
    if n == 0 then [] else [v] + Repeat(v, n - 1)
  }

  function RunPoints(s: seq<Card>): nat
  {
    if HasAdjacentRun(s) then LongestRunsTotal(s) else 0
  }

  /* ---------------------------------------------------------------- flush */

  function CountSuit(s: seq<Card>, suit: Suit): nat
  {
    if s == [] then 0 else (if s[0].suit == suit then 1 else 0) + CountSuit(s[1..], suit)
  }

  function MaxSuitCount(s: seq<Card>): nat
  {
    Max(Max(CountSuit(s, Spades), CountSuit(s, Hearts)), Max(CountSuit(s, Diamonds), CountSuit(s, Clubs)))
  }

  /** `flush_points`: with four or more cards, the largest suit count once some suit has more than three. */
  function FlushPoints(s: seq<Card>): nat
  {
    if |s| < 4 then 0
    else if CountSuit(s, Spades) > 3 || CountSuit(s, Hearts) > 3
         || CountSuit(s, Diamonds) > 3 || CountSuit(s, Clubs) > 3
    then MaxSuitCount(s)
    else 0
  }

  /** In the crib only a flush of five stands. */
  function CribFlush(flush: nat, isCrib: bool): nat
  {
    if flush != 5 && isCrib then 0 else flush
  }

  /* -------------------------------------------------------- heels and nobs */

  /** The heels list: one entry once a starter is set, 2 for a Jack starter to the crib's owner. */
  function HeelsList(starter: Option<Card>, hasCrib: bool): seq<nat>
  {
    if starter.Some? then [if starter.value.rank == JACK && hasCrib then 2 else 0] else []
  }

  /** Jacks of the starter's suit among `cards`. */
  function JacksOfSuit(cards: seq<Card>, suit: Suit): nat
  {
    if cards == [] then 0
    else (if cards[0].rank == JACK && cards[0].suit == suit then 1 else 0) + JacksOfSuit(cards[1..], suit)
  }

  /** The nobs item: looked for only when the heels list is empty while a starter is set. */
  function NobsPoints(cards: seq<Card>, starter: Option<Card>, heels: seq<nat>): nat
  {
    if starter.Some? && heels == [] then JacksOfSuit(cards, starter.value.suit) else 0
  }

  /** The heels item: 2 exactly for a Jack starter turned for the crib's owner. */
  lemma HeelsValue(starter: Option<Card>, hasCrib: bool)
    ensures Sum(HeelsList(starter, hasCrib)) == if starter.Some? && starter.value.rank == JACK && hasCrib then 2 else 0
  {
    var h := HeelsList(starter, hasCrib);
    if starter.Some? {
      assert h[1..] == [];
    }
  }

  /**
    Nobs is never scored: once a starter is set the heels list holds one
    entry (possibly 0), so the branch that would count the Jack of the
    starter's suit is never taken.
  */
  lemma NobsNeverCounted(cards: seq<Card>, starter: Option<Card>, hasCrib: bool)
    ensures NobsPoints(cards, starter, HeelsList(starter, hasCrib)) == 0
  {
  }

  /* ---------------------------------------------------------------- total */

  /** The dictionary `score` returns. */
  datatype Breakdown = Breakdown(
    score: nat, pairs: nat, fifteens: nat, runs: nat, flushes: nat, nobs: nat, heels: nat)

  function StarterList(starter: Option<Card>): seq<Card>
  {
    if starter.Some? then [starter.value] else []
  }

  /** The dictionary with its `score` entry filled in as the sum of the items. */
  function Tally(pairs: nat, fifteens: nat, runs: nat, flushes: nat, nobs: nat, heels: nat): Breakdown
  {
    Breakdown(pairs + fifteens + runs + nobs + heels + flushes, pairs, fifteens, runs, flushes, nobs, heels)
  }

  /** The items `score` adds up, computed from the sorted list `all`. */
  function ItemsOf(all: seq<Card>, starter: Option<Card>, hasCrib: bool, isCrib: bool): (b: Breakdown)
    ensures b.score == b.pairs + b.fifteens + b.runs + b.flushes + b.nobs + b.heels
    ensures b.nobs == 0
    ensures b.heels == if starter.Some? && starter.value.rank == JACK && hasCrib then 2 else 0
    ensures isCrib ==> b.flushes == 0 || b.flushes == 5
  {
    var heels := HeelsList(starter, hasCrib);
    HeelsValue(starter, hasCrib);
    NobsNeverCounted(all, starter, hasCrib);
    Tally(PairPoints(all), FifteenPoints(all), RunPoints(all), CribFlush(FlushPoints(all), isCrib),
          NobsPoints(all, starter, heels), Sum(heels))
  }

  /** `Scorer.score` of a hand holding `cards` with the given starter. */
  function ScoreOf(cards: seq<Card>, starter: Option<Card>, hasCrib: bool, isCrib: bool): (b: Breakdown)
    ensures b.score == b.pairs + b.fifteens + b.runs + b.flushes + b.nobs + b.heels
    ensures b.nobs == 0
    ensures b.heels == if starter.Some? && starter.value.rank == JACK && hasCrib then 2 else 0
    ensures isCrib ==> b.flushes == 0 || b.flushes == 5
  {
    ItemsOf(SortCards(cards + StarterList(starter)), starter, hasCrib, isCrib)
  }
}
