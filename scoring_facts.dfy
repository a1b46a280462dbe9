/**
  What the items of `Scorer.score` amount to, stated against independent
  definitions: pairs count every two cards of equal rank, fifteens count
  every selection worth 15, runs score only behind the neighbouring-cards
  gate, flushes count the starter too, and the score depends only on which
  cards are held, not on their order.
*/
module ScoringFacts {
  import opened Results
  import opened Cards
  import opened Combinatorics
  import opened CardSort
  import opened ScoreRules
  import opened Scorer

  /* ---------------------------------------------------------------- pairs */

  /** `2 * sum(xrange(1, n))` is `n * (n - 1)`: 2 for each two of the `n` cards. */
  lemma {:induction false} PairPointsForCount(n: nat)
    ensures PairPointsFor(n) == n * (n - 1)
    ensures Triangle(n) * 2 == n * (n - 1)
  {
    if n > 1 {
      PairPointsForCount(n - 1);
    }
  }

  /** One more card of a rank seen `c` times adds `2 * c` pair points. */
  lemma PairPointsForStep(c: nat)
    ensures PairPointsFor(c + 1) == PairPointsFor(c) + 2 * c
  {
    PairPointsForCount(c);
    PairPointsForCount(c + 1);
  }

  /** Taking the first card off changes only its own rank's count. */
  lemma {:induction false} RankPairSumCons(s: seq<Card>, r: int)
    requires s != []
    ensures RankPairSum(s, r) ==
      RankPairSum(s[1..], r) + (if r <= s[0].rank then 2 * CountRank(s[1..], s[0].rank) else 0)
    decreases KING + 1 - r
  {
    if r <= KING {
      RankPairSumCons(s, r + 1);
      if r == s[0].rank {
        PairPointsForStep(CountRank(s[1..], r));
      }
    }
  }

  /** Counted per rank, the pair points are 2 for every two positions holding equal ranks. */
  lemma {:induction false} RankPairSumIsPairs(s: seq<Card>)
    ensures RankPairSum(s, ACE) == 2 * SameRankPairs(s)
  {
    if s == [] {
      assert RankPairSum(s, ACE) == 0 by {
        ZeroCountsNoPoints(s, ACE);
      }
    } else {
      RankPairSumCons(s, ACE);
      RankPairSumIsPairs(s[1..]);
    }
  }

  lemma {:induction false} ZeroCountsNoPoints(s: seq<Card>, r: int)
    requires s == []
    ensures RankPairSum(s, r) == 0
    decreases KING + 1 - r
  {
    if r <= KING {
      ZeroCountsNoPoints(s, r + 1);
    }
  }

  lemma {:induction false} CountRankAbsent(s: seq<Card>, r: int)
    requires forall k :: 0 <= k < |s| ==> s[k].rank != r
    ensures CountRank(s, r) == 0
  {
    if s != [] {
      CountRankAbsent(s[1..], r);
    }
  }

  /** In a sorted hand without two neighbouring cards of equal rank no two cards share a rank. */
  lemma {:induction false} NoAdjacentPairNoPairs(s: seq<Card>)
    requires SortedCards(s) && !HasAdjacentPair(s)
    ensures SameRankPairs(s) == 0
  {
    if s != [] {
      SortedRanks(s);
      forall k | 0 <= k < |s[1..]| ensures s[1..][k].rank != s[0].rank {
        assert s[0].rank != s[1].rank;
        assert s[1].rank <= s[k + 1].rank;
      }
      CountRankAbsent(s[1..], s[0].rank);
      SortedTail(s);
      NoAdjacentPairNoPairs(s[1..]);
    }
  }

  /**
    On a sorted hand the `has_pairs` gate loses nothing: the pairs item is 2
    for every two cards of equal rank.
  */
  lemma PairsAreSameRankSelections(s: seq<Card>)
    requires SortedCards(s)
    ensures PairPoints(s) == 2 * SameRankPairs(s)
  {
    RankPairSumIsPairs(s);
    if !HasAdjacentPair(s) {
      NoAdjacentPairNoPairs(s);
    }
  }

  /* ------------------------------------------------------------- fifteens */

  /** Members of `q` whose values add up to `t`. */
  function CountWithSum(q: seq<seq<Card>>, t: int): nat
  {
    if q == [] then 0 else (if ValueSum(q[0]) == t then 1 else 0) + CountWithSum(q[1..], t)
  }

  lemma {:induction false} CountFifteensIsSum(q: seq<seq<Card>>)
    ensures CountFifteens(q) == CountWithSum(q, 15)
  {
    if q != [] {
      CountFifteensIsSum(q[1..]);
    }
  }

  lemma {:induction false} CountWithSumConcat(a: seq<seq<Card>>, b: seq<seq<Card>>, t: int)
    ensures CountWithSum(a + b, t) == CountWithSum(a, t) + CountWithSum(b, t)
  {
    if a != [] {
      assert (a + b)[0] == a[0] && (a + b)[1..] == a[1..] + b;
      CountWithSumConcat(a[1..], b, t);
    } else {
      assert a + b == b;
    }
  }

  /** Putting `x` in front of every member shifts every sum by the value of `x`. */
  lemma {:induction false} CountWithSumPrepend(x: Card, q: seq<seq<Card>>, t: int)
    ensures CountWithSum(PrependAll(x, q), t) == CountWithSum(q, t - Value(x))
  {
    if q != [] {
      var p := PrependAll(x, q);
      assert p[0] == [x] + q[0];
      assert ([x] + q[0])[1..] == q[0];
      assert p[1..] == PrependAll(x, q[1..]);
      CountWithSumPrepend(x, q[1..], t);
    }
  }

  lemma {:induction false} WaysNone(s: seq<Card>, t: int)
    ensures Ways(s, 0, t) == if t == 0 then 1 else 0
  {
    if s != [] {
      WaysNone(s[1..], t);
    }
  }

  /** Counting over "with `x`" followed by "without `x`" adds the two counts, the first shifted by the value of `x`. */
  lemma CountWithSumStep(x: Card, with: seq<seq<Card>>, without: seq<seq<Card>>, t: int)
    ensures CountWithSum(PrependAll(x, with) + without, t) == CountWithSum(with, t - Value(x)) + CountWithSum(without, t)
  {
    CountWithSumConcat(PrependAll(x, with), without, t);
    CountWithSumPrepend(x, with, t);
  }

  /** The only selection of no cards is worth 0. */
  lemma EmptyCombinationWithSum(s: seq<Card>, t: int)
    ensures CountWithSum(Combinations(s, 0), t) == if t == 0 then 1 else 0
  {
    var c := Combinations(s, 0);
    assert c == [[]] && c[1..] == [];
    assert ValueSum(c[0]) == 0;
  }

  /** The combinations of `k` cards worth `t` are exactly the take-or-leave count. */
  lemma {:induction false} CombinationsWithSum(s: seq<Card>, k: nat, t: int)
    ensures CountWithSum(Combinations(s, k), t) == Ways(s, k, t)
  {
    if k == 0 {
      WaysNone(s, t);
      EmptyCombinationWithSum(s, t);
    } else if s != [] {
      var v := Value(s[0]);
      CombinationsWithSum(s[1..], k - 1, t - v);
      CombinationsWithSum(s[1..], k, t);
      CountWithSumStep(s[0], Combinations(s[1..], k - 1), Combinations(s[1..], k), t);
    }
  }

  /** The fifteens item is 2 for every selection of two to five cards worth 15. */
  lemma FifteensAreSelections(s: seq<Card>)
    ensures FifteenPoints(s) ==
      2 * (Ways(s, 2, 15) + Ways(s, 3, 15) + Ways(s, 4, 15) + Ways(s, 5, 15))
  {
    var c2, c3, c4, c5 := Combinations(s, 2), Combinations(s, 3), Combinations(s, 4), Combinations(s, 5);
    assert RangedPowerset(s, 2, 5) == c2 + (c3 + (c4 + (c5 + [])));
    CountFifteensIsSum(RangedPowerset(s, 2, 5));
    CountWithSumConcat(c2, c3 + (c4 + (c5 + [])), 15);
    CountWithSumConcat(c3, c4 + (c5 + []), 15);
    CountWithSumConcat(c4, c5 + [], 15);
    assert c5 + [] == c5;
    CombinationsWithSum(s, 2, 15);
    CombinationsWithSum(s, 3, 15);
    CombinationsWithSum(s, 4, 15);
    CombinationsWithSum(s, 5, 15);
  }

  /* ----------------------------------------------------------------- runs */

  /** `k` neighbouring cards are one of the `k`-card combinations. */
  lemma NeighboursAreCombination(s: seq<Card>, i: nat, k: nat)
    requires i + k <= |s|
    ensures s[i..i + k] in Combinations(s, k)
  {
    var idx: seq<nat> := seq(k, j requires 0 <= j < k => i + j);
    assert IncreasingIndices(idx, 0, |s|);
    CombinationsComplete(s, idx);
    assert Pick(s, idx) == s[i..i + k];
  }

  /** A run among the members bounds the longest run from below. */
  lemma {:induction false} LongestRunAtLeast(q: seq<seq<Card>>, c: seq<Card>)
    requires c in q && ConsecutiveRanks(c)
    ensures LongestRun(q) >= |c|
  {
    if q[0] != c {
      assert c in q[1..];
      LongestRunAtLeast(q[1..], c);
    }
  }

  /** The longest run is the length of some run among the members. */
  lemma {:induction false} LongestRunAttained(q: seq<seq<Card>>)
    requires LongestRun(q) > 0
    ensures CountRunsOfSize(q, LongestRun(q)) >= 1
  {
    if !(ConsecutiveRanks(q[0]) && |q[0]| >= LongestRun(q[1..])) {
      LongestRunAttained(q[1..]);
    }
  }

  /** Every combination of a size between `lo` and `hi` is in the ranged powerset. */
  lemma {:induction false} InRangedPowerset(s: seq<Card>, lo: nat, hi: nat, k: nat, c: seq<Card>)
    requires lo <= k <= hi && c in Combinations(s, k)
    ensures c in RangedPowerset(s, lo, hi)
    decreases hi - lo
  {
    if lo < k {
      InRangedPowerset(s, lo + 1, hi, k, c);
    }
  }

  /** A run among the members makes the runs total at least its length. */
  lemma RunsTotalFrom(q: seq<seq<Card>>, c: seq<Card>)
    requires c in q && ConsecutiveRanks(c)
    ensures Sum(Repeat(LongestRun(q), CountRunsOfSize(q, LongestRun(q)))) >= |c|
  {
    LongestRunAtLeast(q, c);
    LongestRunAttained(q);
    RepeatTotal(LongestRun(q), CountRunsOfSize(q, LongestRun(q)));
  }

  /**
    Once three neighbouring cards of the sorted hand form a run, the runs
    item is the longest run's length times the number of runs of that
    length, and at least 3; otherwise it is 0.
  */
  lemma RunsScoreLongest(s: seq<Card>)
    ensures var q := RangedPowerset(s, 3, 5);
      RunPoints(s) == if HasAdjacentRun(s) then LongestRun(q) * CountRunsOfSize(q, LongestRun(q)) else 0
    ensures HasAdjacentRun(s) <==> RunPoints(s) >= 3
    ensures !HasAdjacentRun(s) <==> RunPoints(s) == 0
  {
    var q := RangedPowerset(s, 3, 5);
    RepeatTotal(LongestRun(q), CountRunsOfSize(q, LongestRun(q)));
    if HasAdjacentRun(s) {
      var i: nat :| i < |s| && RunAt(s, i);
      NeighboursAreCombination(s, i, 3);
      InRangedPowerset(s, 3, 5, 3, s[i..i + 3]);
      RunsTotalFrom(q, s[i..i + 3]);
    }
  }

  /** On a hand that is already sorted, the runs item is taken over the hand as it stands. */
  lemma RunsOfSortedHand(cards: seq<Card>, starter: Option<Card>, hasCrib: bool, isCrib: bool)
    requires SortedCards(cards + StarterList(starter))
    ensures ScoreOf(cards, starter, hasCrib, isCrib).runs == RunPoints(cards + StarterList(starter))
  {
    var all := cards + StarterList(starter);
    SortCardsCorrect(all);
    SortedUnique(SortCards(all), all);
  }

  /**
    The gate on neighbouring cards hides runs: when the sorted hand and starter
    read r, r+1, r+1, r+2 and then a card more than one above (3, 4, 4, 5, K,
    say), the cards at positions 0, 1 and 3 form a run, but no three
    neighbouring cards do, so the runs item is 0.
  */
  lemma SplitRunNotCounted(hand: seq<Card>, starter: Card, hasCrib: bool, isCrib: bool)
    requires |hand| == 4 && SortedCards(hand + [starter])
    requires hand[1].rank == hand[0].rank + 1 && hand[2].rank == hand[1].rank
    requires hand[3].rank == hand[2].rank + 1 && starter.rank > hand[3].rank + 1
    ensures ConsecutiveRanks(Pick(hand + [starter], [0, 1, 3]))
    ensures ScoreOf(hand, Some(starter), hasCrib, isCrib).runs == 0
  {
    var s := hand + [starter];
    assert Pick(s, [0, 1, 3]) == [s[0], s[1], s[3]];
    assert hand + StarterList(Some(starter)) == s;
    RunsOfSortedHand(hand, Some(starter), hasCrib, isCrib);
    NoNeighbouringRun(s);
  }

  /** Ranks r, r+1, r+1, r+2 and then a gap hold no three neighbouring consecutive cards. */
  lemma NoNeighbouringRun(s: seq<Card>)
    requires |s| == 5
    requires s[1].rank == s[0].rank + 1 && s[2].rank == s[1].rank
    requires s[3].rank == s[2].rank + 1 && s[4].rank > s[3].rank + 1
    ensures !HasAdjacentRun(s)
  {
    forall i: nat | i < |s| ensures !RunAt(s, i) {
      if i + 3 <= |s| {
        var w := s[i..i + 3];
        assert w[0] == s[i] && w[1] == s[i + 1] && w[2] == s[i + 2];
        assert w[1].rank - w[0].rank != 1 || w[2].rank - w[1].rank != 1;
      }
    }
  }

  /* ---------------------------------------------------------------- flush */

  lemma {:induction false} CountSuitConcat(a: seq<Card>, b: seq<Card>, st: Suit)
    ensures CountSuit(a + b, st) == CountSuit(a, st) + CountSuit(b, st)
  {
    if a != [] {
      assert (a + b)[0] == a[0] && (a + b)[1..] == a[1..] + b;
      CountSuitConcat(a[1..], b, st);
    } else {
      assert a + b == b;
    }
  }

  /** Suit counts depend only on which cards are held. */
  lemma {:induction false} CountSuitOfMultiset(a: seq<Card>, b: seq<Card>, st: Suit)
    requires multiset(a) == multiset(b)
    ensures CountSuit(a, st) == CountSuit(b, st)
  {
    if a != [] {
      assert a[0] in multiset(b);
      var j :| 0 <= j < |b| && b[j] == a[0];
      DropMatching(a, b, j);
      CountSuitDrop(b, j, st);
      CountSuitOfMultiset(a[1..], b[..j] + b[j + 1..], st);
    }
  }

  /** Dropping the card at `j` drops its suit from the count. */
  lemma CountSuitDrop(b: seq<Card>, j: nat, st: Suit)
    requires j < |b|
    ensures CountSuit(b, st) == CountSuit(b[..j] + b[j + 1..], st) + (if b[j].suit == st then 1 else 0)
  {
    assert b == b[..j] + [b[j]] + b[j + 1..];
    CountSuitConcat(b[..j] + [b[j]], b[j + 1..], st);
    CountSuitConcat(b[..j], [b[j]], st);
    CountSuitConcat(b[..j], b[j + 1..], st);
  }

  /** Two lists holding the same cards still do once the first card of one and a copy of it in the other are dropped. */
  lemma DropMatching(a: seq<Card>, b: seq<Card>, j: nat)
    requires multiset(a) == multiset(b) && a != [] && j < |b| && b[j] == a[0]
    ensures multiset(a[1..]) == multiset(b[..j] + b[j + 1..])
  {
    assert a == [a[0]] + a[1..];
    assert multiset(a) == multiset{a[0]} + multiset(a[1..]);
    assert b == b[..j] + [b[j]] + b[j + 1..];
    assert multiset(b) == multiset(b[..j]) + multiset{b[j]} + multiset(b[j + 1..]);
    assert multiset(b[..j] + b[j + 1..]) == multiset(b[..j]) + multiset(b[j + 1..]);
    calc {
      multiset(a[1..]);
      multiset(a) - multiset{a[0]};
      multiset(b) - multiset{b[j]};
      multiset(b[..j]) + multiset(b[j + 1..]);
    }
  }

  lemma {:induction false} CountSuitBound(s: seq<Card>, st: Suit)
    ensures CountSuit(s, st) <= |s|
    ensures CountSuit(s, st) == |s| <==> forall k :: 0 <= k < |s| ==> s[k].suit == st
  {
    if s != [] {
      CountSuitBound(s[1..], st);
      if CountSuit(s, st) == |s| {
        forall k | 0 <= k < |s| ensures s[k].suit == st {
          if k > 0 {
            assert s[k] == s[1..][k - 1];
          }
        }
      }
      if forall k :: 0 <= k < |s| ==> s[k].suit == st {
        assert forall k :: 0 <= k < |s[1..]| ==> s[1..][k].suit == st by {
          forall k | 0 <= k < |s[1..]| ensures s[1..][k].suit == st {
            assert s[1..][k] == s[k + 1];
          }
        }
      }
    }
  }

  /** The flush item is 0 or a suit count from 4 up to the number of cards. */
  lemma FlushRange(s: seq<Card>)
    ensures FlushPoints(s) == 0 || 4 <= FlushPoints(s) <= |s|
  {
    CountSuitBound(s, Spades);
    CountSuitBound(s, Hearts);
    CountSuitBound(s, Diamonds);
    CountSuitBound(s, Clubs);
  }

  predicate AllOfSuit(s: seq<Card>, st: Suit)
  {
    forall k :: 0 <= k < |s| ==> s[k].suit == st
  }

  /** Five cards score a flush of 5 exactly when they are all of one suit. */
  lemma FiveCardFlush(s: seq<Card>)
    requires |s| == 5
    ensures FlushPoints(s) == 5 <==> exists st: Suit :: AllOfSuit(s, st)
  {
    CountSuitBound(s, Spades);
    CountSuitBound(s, Hearts);
    CountSuitBound(s, Diamonds);
    CountSuitBound(s, Clubs);
    if exists st: Suit :: AllOfSuit(s, st) {
      var st: Suit :| AllOfSuit(s, st);
      assert CountSuit(s, st) == 5;
    } else if FlushPoints(s) == 5 {
      if CountSuit(s, Spades) == 5 {
        assert AllOfSuit(s, Spades);
      } else if CountSuit(s, Hearts) == 5 {
        assert AllOfSuit(s, Hearts);
      } else if CountSuit(s, Diamonds) == 5 {
        assert AllOfSuit(s, Diamonds);
      } else {
        assert AllOfSuit(s, Clubs);
      }
    }
  }

  /** The flush item depends only on which cards are held. */
  lemma FlushOfMultiset(a: seq<Card>, b: seq<Card>)
    requires multiset(a) == multiset(b)
    ensures FlushPoints(a) == FlushPoints(b)
  {
    assert |a| == |multiset(a)| == |multiset(b)| == |b|;
    CountSuitOfMultiset(a, b, Spades);
    CountSuitOfMultiset(a, b, Hearts);
    CountSuitOfMultiset(a, b, Diamonds);
    CountSuitOfMultiset(a, b, Clubs);
  }

  /* ---------------------------------------------------------------- total */

  /** The score depends only on which cards the hand holds, not on their order. */
  lemma ScoreOfMultiset(a: seq<Card>, b: seq<Card>, starter: Option<Card>, hasCrib: bool, isCrib: bool)
    requires multiset(a) == multiset(b)
    ensures ScoreOf(a, starter, hasCrib, isCrib) == ScoreOf(b, starter, hasCrib, isCrib)
  {
    var sa, sb := a + StarterList(starter), b + StarterList(starter);
    assert multiset(sa) == multiset(sb);
    SortCardsCorrect(sa);
    SortCardsCorrect(sb);
    SortedUnique(SortCards(sa), SortCards(sb));
  }

  /** The flush item is taken over the hand together with its starter. */
  lemma FlushOfHandAndStarter(cards: seq<Card>, starter: Option<Card>, hasCrib: bool, isCrib: bool)
    ensures ScoreOf(cards, starter, hasCrib, isCrib).flushes ==
      CribFlush(FlushPoints(cards + StarterList(starter)), isCrib)
  {
    var all := cards + StarterList(starter);
    SortCardsCorrect(all);
    FlushOfMultiset(SortCards(all), all);
  }

  /**
    The flush counts the starter: three cards of one suit in hand with a
    starter of that suit score a flush of 4 outside the crib (and nothing in
    the crib, where only 5 counts).
  */
  lemma FlushIncludesStarter(cards: seq<Card>, starter: Card, hasCrib: bool)
    requires |cards| == 4 && CountSuit(cards, starter.suit) == 3
    ensures ScoreOf(cards, Some(starter), hasCrib, false).flushes == 4
    ensures ScoreOf(cards, Some(starter), hasCrib, true).flushes == 0
  {
    var all := cards + [starter];
    assert cards + StarterList(Some(starter)) == all;
    FlushOfHandAndStarter(cards, Some(starter), hasCrib, false);
    FlushOfHandAndStarter(cards, Some(starter), hasCrib, true);
    CountSuitConcat(cards, [starter], starter.suit);
    assert CountSuit([starter], starter.suit) == 1;
    FourOfFive(all, starter.suit);
  }

  /** Five cards, four of one suit, make a flush of 4. */
  lemma FourOfFive(s: seq<Card>, st: Suit)
    requires |s| == 5 && CountSuit(s, st) == 4
    ensures FlushPoints(s) == 4
  {
    SuitCountsSum(s);
  }

  /** Every card has exactly one suit, so the four suit counts add up to the length. */
  lemma {:induction false} SuitCountsSum(s: seq<Card>)
    ensures CountSuit(s, Spades) + CountSuit(s, Hearts) + CountSuit(s, Diamonds) + CountSuit(s, Clubs) == |s|
  {
    if s != [] {
      SuitCountsSum(s[1..]);
    }
  }
}
