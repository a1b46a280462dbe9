/**
  The crib-throw bots of kyle_ai.py. Both consider every 4-card keep of the
  hand, score it against every unseen starter card, and keep the best;
  `KyleBotV3` first ranks the keeps by hand score in a heap and then weighs
  only the top three with an exact expected crib score.

  Python exceptions become `BotError` values: `ZeroDivision` for a division
  by a zero count, `EmptyHeap` for `heappop` on an empty heap, `NoKeep`
  where the code would go on with `best_hand` still `None`, and
  `WrongThrowCount` for the failed `assert len(cards_to_throw) == 2`.
  Floats are exact reals.
*/
module KyleAi {
  import opened Results
  import opened Cards
  import opened Combinatorics
  import opened Hands
  import opened ScoreRules
  import opened Scorer
  import opened ScoreHeap
  import opened CardSets
  import ScoringFacts

  datatype BotError = ZeroDivision | EmptyHeap | NoKeep | WrongThrowCount

  /** What `_get_best_hand` returns: the keep (`None` when there was none) and the expected points per starter. */
  datatype Choice = Choice(keep: Option<seq<Card>>, expected: real)

  /** A keep with the total it was judged by. */
  datatype Scored = Scored(keep: seq<Card>, total: real)

  /** `float(x) / float(n)`, exact. */
  function Ratio(x: real, n: nat): real
    requires n > 0
  {
    x / n as real
  }

  /** The ratio times the count gives back the total, and keeps its sign. */
  lemma RatioFacts(x: real, n: nat)
    requires n > 0
    ensures Ratio(x, n) * n as real == x
    ensures x >= 0.0 ==> Ratio(x, n) >= 0.0
    ensures x <= 0.0 ==> Ratio(x, n) <= 0.0
  {
  }

  /** Dividing by the same count keeps the order of the totals, both ways. */
  lemma RatioMonotone(x: real, y: real, n: nat)
    requires n > 0
    ensures x <= y <==> Ratio(x, n) <= Ratio(y, n)
    ensures x < y <==> Ratio(x, n) < Ratio(y, n)
  {
    RatioFacts(x, n);
    RatioFacts(y, n);
  }

  /* ------------------------------------------------------ the hand score */

  /** Points of `keep` summed over the starters in `starters` (`_score_from_hand` in the loop over starters). */
  function HandTotal(keep: seq<Card>, starters: seq<Card>, hasCrib: bool): nat
  {
    if starters == [] then 0
    else HandTotal(keep, starters[..|starters| - 1], hasCrib)
         + ScoreOf(keep, Some(starters[|starters| - 1]), hasCrib, false).score
  }

  /**
    The inner loop of `_get_best_hand`: one `Hand` of the kept cards gets
    each starter in turn and is scored.
  */
  method ScoreHand(keep: seq<Card>, starters: seq<Card>, hasCrib: bool) returns (total: nat)
    ensures total == HandTotal(keep, starters, hasCrib)
  {
    var hand := new Hand(keep, None);
    total := 0;
    for i := 0 to |starters|
      invariant hand.cards == keep
      invariant total == HandTotal(keep, starters[..i], hasCrib)
    {
      assert starters[..i + 1][..i] == starters[..i];
      hand.AddStarterCard(starters[i]);
      var b := Score(hand, hasCrib, false);
      total := total + b.score;
    }
    assert starters[..|starters|] == starters;
  }

  /** The hand total does not depend on the order the kept cards are listed in. */
  lemma {:induction false} HandTotalOfMultiset(a: seq<Card>, b: seq<Card>, starters: seq<Card>, hasCrib: bool)
    requires multiset(a) == multiset(b)
    ensures HandTotal(a, starters, hasCrib) == HandTotal(b, starters, hasCrib)
  {
    if starters != [] {
      HandTotalOfMultiset(a, b, starters[..|starters| - 1], hasCrib);
      ScoringFacts.ScoreOfMultiset(a, b, Some(starters[|starters| - 1]), hasCrib, false);
    }
  }

  /* ------------------------------------------------------ the crib score */

  /** Points of the cribs `throw + pair`, for each pair in `pairs`, with the starter cut. */
  function CribTotal(throw: seq<Card>, starter: Card, pairs: seq<seq<Card>>): nat
  {
    if pairs == [] then 0
    else CribTotal(throw, starter, pairs[..|pairs| - 1])
         + ScoreOf(throw + pairs[|pairs| - 1], Some(starter), false, true).score
  }

  /**
    The average crib score over the given completions `pairs` of the thrown
    cards, negated when the crib is the opponent's; a division by zero when
    there is no completion.
  */
  function CribMean(throw: seq<Card>, starter: Card, pairs: seq<seq<Card>>, hasCrib: bool): Result<real, BotError>
  {
    if |pairs| == 0 then Err(ZeroDivision)
    else
      var expected := Ratio(CribTotal(throw, starter, pairs) as real, |pairs|);
      Ok(if hasCrib then expected else -1.0 * expected)
  }

  /** The crib estimate as seen by the crib's owner: the opponent's estimate negated back. */
  function Unsigned(v: real, hasCrib: bool): real
  {
    if hasCrib then v else -v
  }

  /**
    The mean fails exactly when there is no completion; otherwise, seen from
    the crib's owner, it is the summed crib score divided by the number of
    completions: not below 0 for the dealer, not above 0 for the opponent.
  */
  lemma CribMeanFacts(throw: seq<Card>, starter: Card, pairs: seq<seq<Card>>, hasCrib: bool)
    ensures CribMean(throw, starter, pairs, hasCrib).Err? <==> pairs == []
    ensures pairs != [] ==> Unsigned(CribMean(throw, starter, pairs, hasCrib).value, hasCrib)
                            == Ratio(CribTotal(throw, starter, pairs) as real, |pairs|)
    ensures pairs != [] && hasCrib ==> CribMean(throw, starter, pairs, hasCrib).value >= 0.0
    ensures pairs != [] && !hasCrib ==> CribMean(throw, starter, pairs, hasCrib).value <= 0.0
  {
    if pairs != [] {
      RatioFacts(CribTotal(throw, starter, pairs) as real, |pairs|);
    }
  }

  /**
    `KyleBotV3._score_from_crib`: the signed mean crib score over every pair
    of the other cards joining the thrown ones.
  */
  function CribEstimate(throw: seq<Card>, starter: Card, others: seq<Card>, hasCrib: bool): Result<real, BotError>
  {
    CribMean(throw, starter, Combinations(others, 2), hasCrib)
  }

  /** `KyleBotV3._score_from_crib`: the crib of each pair of the other cards is scored and the mean taken. */
  method ScoreFromCrib(throw: seq<Card>, starter: Card, others: seq<Card>, hasCrib: bool)
    returns (r: Result<real, BotError>)
    ensures r == CribEstimate(throw, starter, others, hasCrib)
  {
    r := MeanOverPairs(throw, starter, Combinations(others, 2), hasCrib);
  }

  /** The loop of `KyleBotV3._score_from_crib` over the given pairs, then the division and the sign. */
  method MeanOverPairs(throw: seq<Card>, starter: Card, pairs: seq<seq<Card>>, hasCrib: bool)
    returns (r: Result<real, BotError>)
    ensures r == CribMean(throw, starter, pairs, hasCrib)
  {
    var cribScore, count := ScorePairs(throw, starter, pairs);
    if count == 0 {
      return Err(ZeroDivision);
    }
    var expected := Ratio(cribScore as real, count);
    if !hasCrib {
      return Ok(-1.0 * expected);
    }
    return Ok(expected);
  }

  /** The crib score summed over the pairs, and the number of pairs. */
  method ScorePairs(throw: seq<Card>, starter: Card, pairs: seq<seq<Card>>) returns (cribScore: nat, count: nat)
    ensures cribScore == CribTotal(throw, starter, pairs) && count == |pairs|
  {
    cribScore := 0;
    count := 0;
    for i := 0 to |pairs|
      invariant count == i
      invariant cribScore == CribTotal(throw, starter, pairs[..i])
    {
      assert pairs[..i + 1][..i] == pairs[..i];
      var crib := new Hand(throw + pairs[i], None);
      crib.AddStarterCard(starter);
      var b := Score(crib, false, true);
      cribScore := cribScore + b.score;
      count := count + 1;
    }
    assert pairs[..|pairs|] == pairs;
  }

  lemma {:induction false} BinomialPositive(n: nat, k: nat)
    requires k <= n
    ensures Binomial(n, k) > 0
  {
    if k > 0 {
      BinomialPositive(n - 1, k - 1);
    }
  }

  lemma {:induction false} BinomialZero(n: nat, k: nat)
    requires n < k
    ensures Binomial(n, k) == 0
  {
    if n > 0 {
      BinomialZero(n - 1, k - 1);
      BinomialZero(n - 1, k);
    }
  }

  /** The crib estimate fails exactly when fewer than two other cards are left to complete the crib. */
  lemma CribEstimateFacts(throw: seq<Card>, starter: Card, others: seq<Card>, hasCrib: bool)
    ensures CribEstimate(throw, starter, others, hasCrib).Err? <==> |others| < 2
    ensures CribEstimate(throw, starter, others, hasCrib).Err? ==> CribEstimate(throw, starter, others, hasCrib).error == ZeroDivision
  {
    CombinationsSizes(others, 2);
    if |others| < 2 {
      BinomialZero(|others|, 2);
    } else {
      BinomialPositive(|others|, 2);
    }
  }

  /**
    The running sum `crib_score += ...` over a list of estimates: the sum of
    their values, or the error of the first estimate that failed.
  */
  function SumResults(ests: seq<Result<real, BotError>>): Result<real, BotError>
  {
    if ests == [] then Ok(0.0)
    else
      var prev := SumResults(ests[..|ests| - 1]);
      if prev.Err? then prev else AddResult(prev.value, ests[|ests| - 1])
  }

  /** `total + e`, or the error of `e`. */
  function AddResult(total: real, e: Result<real, BotError>): Result<real, BotError>
  {
    if e.Err? then Err(e.error) else Ok(total + e.value)
  }

  /** One more estimate adds its value to the sum, or ends it with the estimate's error. */
  lemma SumResultsStep(ests: seq<Result<real, BotError>>, i: nat, total: real)
    requires i < |ests| && SumResults(ests[..i]) == Ok(total)
    ensures SumResults(ests[..i + 1]) == AddResult(total, ests[i])
    ensures SumResults(ests[..i + 1]).Ok? ==> SumResults(ests[..i + 1]).value == total + ests[i].value
  {
    assert ests[..i + 1][..i] == ests[..i];
  }

  /** Once the sum over a prefix fails, the sum over the whole list fails the same way. */
  lemma {:induction false} FirstFailureStays(ests: seq<Result<real, BotError>>, j: nat)
    requires j <= |ests| && SumResults(ests[..j]).Err?
    ensures SumResults(ests) == SumResults(ests[..j])
    decreases |ests| - j
  {
    if j < |ests| {
      assert ests[..j + 1][..j] == ests[..j];
      FirstFailureStays(ests, j + 1);
    } else {
      assert ests[..j] == ests;
    }
  }

  /**
    The sum fails exactly when some estimate fails, and then with the error
    of the first failing one.
  */
  lemma {:induction false} SumResultsFails(ests: seq<Result<real, BotError>>)
    ensures SumResults(ests).Err? <==> exists k :: 0 <= k < |ests| && ests[k].Err?
    ensures SumResults(ests).Err? ==>
      exists k :: 0 <= k < |ests| && ests[k].Err? && SumResults(ests).error == ests[k].error
        && forall j :: 0 <= j < k ==> ests[j].Ok?
  {
    if ests != [] {
      var init := ests[..|ests| - 1];
      SumResultsFails(init);
      assert forall k :: 0 <= k < |init| ==> init[k] == ests[k];
    }
  }

  /** The crib estimate for each starter, over the other cards without that starter. */
  function CribEstimates(throw: seq<Card>, other: seq<Card>, hasCrib: bool): seq<Result<real, BotError>>
  {
    seq(|other|, i requires 0 <= i < |other| => CribEstimate(throw, other[i], Without(other, other[i]), hasCrib))
  }

  /** The summed crib estimates over every starter (the crib loop of `KyleBotV3._get_best_hand`). */
  function CribSum(throw: seq<Card>, other: seq<Card>, hasCrib: bool): Result<real, BotError>
  {
    SumResults(CribEstimates(throw, other, hasCrib))
  }

  /** The crib loop of `KyleBotV3._get_best_hand`, stopped by the first failing estimate. */
  method CribForKeep(throw: seq<Card>, other: seq<Card>, hasCrib: bool) returns (r: Result<real, BotError>)
    ensures r == CribSum(throw, other, hasCrib)
  {
    ghost var ests := CribEstimates(throw, other, hasCrib);
    var total := 0.0;
    for i := 0 to |other|
      invariant SumResults(ests[..i]) == Ok(total)
    {
      var next := AddEstimate(throw, other, hasCrib, i, total);
      if next.Err? {
        FirstFailureStays(ests, i + 1);
        return next;
      }
      total := next.value;
    }
    assert ests[..|other|] == ests;
    r := Ok(total);
  }

  /** One pass of the crib loop: `crib_score += ...` for the `i`-th starter. */
  method AddEstimate(throw: seq<Card>, other: seq<Card>, hasCrib: bool, i: nat, total: real)
    returns (next: Result<real, BotError>)
    requires i < |other| && SumResults(CribEstimates(throw, other, hasCrib)[..i]) == Ok(total)
    ensures next == SumResults(CribEstimates(throw, other, hasCrib)[..i + 1])
  {
    ghost var ests := CribEstimates(throw, other, hasCrib);
    var e := EstimateFor(throw, other, hasCrib, i);
    SumResultsStep(ests, i, total);
    next := AddResult(total, e);
  }

  /** The call `_score_from_crib(cards_to_throw, starter_card, other_cards - set([starter_card]), has_crib)` for the `i`-th starter. */
  method EstimateFor(throw: seq<Card>, other: seq<Card>, hasCrib: bool, i: nat) returns (e: Result<real, BotError>)
    requires i < |other|
    ensures |CribEstimates(throw, other, hasCrib)| == |other|
    ensures e == CribEstimates(throw, other, hasCrib)[i]
  {
    e := ScoreFromCrib(throw, other[i], Without(other, other[i]), hasCrib);
  }

  /**
    With the other cards free of repeats, the crib sum fails exactly when
    there are one or two other cards: removing the starter then leaves fewer
    than two cards to complete the crib; the error is then a division by zero.
  */
  lemma CribSumFails(throw: seq<Card>, other: seq<Card>, hasCrib: bool)
    requires NoDuplicates(other)
    ensures CribSum(throw, other, hasCrib).Err? <==> other != [] && |other| < 3
    ensures CribSum(throw, other, hasCrib).Err? ==> CribSum(throw, other, hasCrib).error == ZeroDivision
  {
    var ests := CribEstimates(throw, other, hasCrib);
    SumResultsFails(ests);
    forall k | 0 <= k < |other|
      ensures ests[k].Err? <==> |other| < 3
      ensures ests[k].Err? ==> ests[k].error == ZeroDivision
    {
      WithoutSize(other, other[k]);
      CribEstimateFacts(throw, other[k], Without(other, other[k]), hasCrib);
    }
    if other != [] && |other| < 3 {
      assert ests[0].Err?;
    }
  }

  /* ---------------------------------------------------------- the choice */

  /**
    The running best of `_get_best_hand`: a candidate replaces the best so
    far only when its total is strictly greater, so the first of equal
    totals wins.
  */
  function Best(cands: seq<Scored>, best: real, keep: Option<seq<Card>>): (Option<seq<Card>>, real)
  {
    if cands == [] then (keep, best)
    else if cands[0].total > best then Best(cands[1..], cands[0].total, Some(cands[0].keep))
    else Best(cands[1..], best, keep)
  }

  /**
    The running best ends at the largest total when some candidate beats the
    starting value, with the keep of the first candidate reaching it;
    otherwise the starting value and keep stand.
  */
  lemma {:induction false} BestIsFirstMaximum(cands: seq<Scored>, best: real, keep: Option<seq<Card>>)
    ensures Best(cands, best, keep).1 >= best
    ensures forall i :: 0 <= i < |cands| ==> Best(cands, best, keep).1 >= cands[i].total
    ensures (forall i :: 0 <= i < |cands| ==> cands[i].total <= best) ==> Best(cands, best, keep) == (keep, best)
    ensures (exists i :: 0 <= i < |cands| && cands[i].total > best) ==>
      exists i :: 0 <= i < |cands|
        && Best(cands, best, keep) == (Some(cands[i].keep), cands[i].total)
        && forall j :: 0 <= j < i ==> cands[j].total < cands[i].total
  {
    if cands != [] {
      var r := Best(cands, best, keep);
      var rest := cands[1..];
      if cands[0].total > best {
        BestIsFirstMaximum(rest, cands[0].total, Some(cands[0].keep));
        if exists i :: 0 <= i < |rest| && rest[i].total > cands[0].total {
          var i :| 0 <= i < |rest|
            && r == (Some(rest[i].keep), rest[i].total)
            && forall j :: 0 <= j < i ==> rest[j].total < rest[i].total;
          FirstMaximumShift(cands, i);
        } else {
          assert r == (Some(cands[0].keep), cands[0].total);
        }
        BoundShift(cands, r.1);
      } else {
        BestIsFirstMaximum(rest, best, keep);
        BoundShift(cands, r.1);
        if exists i :: 0 <= i < |cands| && cands[i].total > best {
          var i0 :| 0 <= i0 < |cands| && cands[i0].total > best;
          assert rest[i0 - 1].total > best;
          var i :| 0 <= i < |rest|
            && r == (Some(rest[i].keep), rest[i].total)
            && forall j :: 0 <= j < i ==> rest[j].total < rest[i].total;
          FirstMaximumShift(cands, i);
        }
      }
    }
  }

  /** A first strict maximum of the tail that beats the head is a first strict maximum of the whole list. */
  lemma FirstMaximumShift(cands: seq<Scored>, i: nat)
    requires i + 1 < |cands| && cands[0].total < cands[i + 1].total
    requires forall j :: 0 <= j < i ==> cands[1..][j].total < cands[1..][i].total
    ensures forall j :: 0 <= j < i + 1 ==> cands[j].total < cands[i + 1].total
  {
    forall j | 0 <= j < i + 1 ensures cands[j].total < cands[i + 1].total {
      if j > 0 {
        assert cands[j] == cands[1..][j - 1];
      }
    }
  }

  /** A bound on the head and on every member of the tail bounds the whole list. */
  lemma BoundShift(cands: seq<Scored>, v: real)
    requires cands != [] && v >= cands[0].total
    requires forall i :: 0 <= i < |cands[1..]| ==> v >= cands[1..][i].total
    ensures forall i :: 0 <= i < |cands| ==> v >= cands[i].total
  {
    forall i | 0 <= i < |cands| ensures v >= cands[i].total {
      if i > 0 {
        assert cands[i] == cands[1..][i - 1];
      }
    }
  }

  /** The `best_score` floor both bots start from. */
  const FLOOR: real := -1000.0

  /** Each 4-card keep of the hand with its hand total (`KyleBotV1` adds a crib score of 0). */
  function V1Scored(keeps: seq<seq<Card>>, other: seq<Card>, hasCrib: bool): seq<Scored>
  {
    seq(|keeps|, i requires 0 <= i < |keeps| => Scored(keeps[i], HandTotal(keeps[i], other, hasCrib) as real))
  }

  /** `KyleBotV1._get_best_hand` on a hand whose `all_cards` are `cards`. */
  function V1Choice(cards: seq<Card>, hasCrib: bool): Result<Choice, BotError>
  {
    var handSet := Dedup(cards);
    var other := Unseen(handSet);
    var best := Best(V1Scored(Combinations(handSet, 4), other, hasCrib), FLOOR, None);
    if |other| == 0 then Err(ZeroDivision)
    else Ok(Choice(best.0, Ratio(best.1, |other|)))
  }

  /**
    Keep `i` has the largest hand total, and every keep before it a smaller
    one: the keep a strict `>` running maximum settles on.
  */
  predicate FirstBestKeep(keeps: seq<seq<Card>>, other: seq<Card>, hasCrib: bool, i: nat)
    requires i < |keeps|
  {
    && (forall k :: 0 <= k < |keeps| ==> HandTotal(keeps[k], other, hasCrib) <= HandTotal(keeps[i], other, hasCrib))
    && (forall k :: 0 <= k < i ==> HandTotal(keeps[k], other, hasCrib) < HandTotal(keeps[i], other, hasCrib))
  }

  /**
    What `KyleBotV1` chooses: with at least four distinct cards, the first
    4-card keep of the hand whose total over the unseen starters is the
    largest, reported as that total per unseen starter; with fewer, no keep
    and the floor per starter. It fails only when the hand holds every card
    of the deck.
  */
  lemma V1ChoiceFacts(cards: seq<Card>, hasCrib: bool)
    ensures V1Choice(cards, hasCrib).Err? <==> Unseen(Dedup(cards)) == []
    ensures V1Choice(cards, hasCrib).Ok? ==>
      var handSet := Dedup(cards);
      var other := Unseen(handSet);
      var keeps := Combinations(handSet, 4);
      var c := V1Choice(cards, hasCrib).value;
      && (|handSet| < 4 ==> c.keep.None? && c.expected == Ratio(FLOOR, |other|))
      && (|handSet| >= 4 ==>
            exists i :: 0 <= i < |keeps| && FirstBestKeep(keeps, other, hasCrib, i)
              && c == Choice(Some(keeps[i]), Ratio(HandTotal(keeps[i], other, hasCrib) as real, |other|)))
  {
    var handSet := Dedup(cards);
    var other := Unseen(handSet);
    var keeps := Combinations(handSet, 4);
    V1BestFacts(keeps, other, hasCrib);
    CombinationsSizes(handSet, 4);
    if |handSet| < 4 {
      BinomialZero(|handSet|, 4);
    } else {
      BinomialPositive(|handSet|, 4);
      if |other| > 0 {
        var i :| 0 <= i < |keeps| && FirstBestKeep(keeps, other, hasCrib, i)
          && Best(V1Scored(keeps, other, hasCrib), FLOOR, None) == (Some(keeps[i]), HandTotal(keeps[i], other, hasCrib) as real);
        assert V1Choice(cards, hasCrib).value == Choice(Some(keeps[i]), Ratio(HandTotal(keeps[i], other, hasCrib) as real, |other|));
      }
    }
  }

  /**
    The running best over the keeps: the floor and no keep when there is no
    keep, otherwise the first keep with the largest hand total, and that
    total.
  */
  lemma V1BestFacts(keeps: seq<seq<Card>>, other: seq<Card>, hasCrib: bool)
    ensures keeps == [] ==> Best(V1Scored(keeps, other, hasCrib), FLOOR, None) == (None, FLOOR)
    ensures keeps != [] ==>
      exists i :: 0 <= i < |keeps| && FirstBestKeep(keeps, other, hasCrib, i)
        && Best(V1Scored(keeps, other, hasCrib), FLOOR, None) == (Some(keeps[i]), HandTotal(keeps[i], other, hasCrib) as real)
  {
    var cands := V1Scored(keeps, other, hasCrib);
    BestIsFirstMaximum(cands, FLOOR, None);
    if keeps != [] {
      assert cands[0].total > FLOOR;
      var i :| 0 <= i < |cands|
        && Best(cands, FLOOR, None) == (Some(cands[i].keep), cands[i].total)
        && forall j :: 0 <= j < i ==> cands[j].total < cands[i].total;
      var top := HandTotal(keeps[i], other, hasCrib);
      assert cands[i] == Scored(keeps[i], top as real);
      assert FirstBestKeep(keeps, other, hasCrib, i) by {
        forall k | 0 <= k < |keeps| ensures HandTotal(keeps[k], other, hasCrib) <= top {
          assert cands[k].total == HandTotal(keeps[k], other, hasCrib) as real;
        }
        forall k | 0 <= k < i ensures HandTotal(keeps[k], other, hasCrib) < top {
          assert cands[k].total == HandTotal(keeps[k], other, hasCrib) as real;
        }
      }
    }
  }

  /**
    The expected value `KyleBotV1` reports is the largest mean over the
    unseen starters of any 4-card keep.
  */
  lemma V1ExpectedIsBestMean(cards: seq<Card>, hasCrib: bool, k: nat)
    requires V1Choice(cards, hasCrib).Ok? && |Dedup(cards)| >= 4
    requires k < |Combinations(Dedup(cards), 4)|
    ensures Ratio(HandTotal(Combinations(Dedup(cards), 4)[k], Unseen(Dedup(cards)), hasCrib) as real, |Unseen(Dedup(cards))|)
            <= V1Choice(cards, hasCrib).value.expected
  {
    V1ChoiceFacts(cards, hasCrib);
    var keeps := Combinations(Dedup(cards), 4);
    var other := Unseen(Dedup(cards));
    var i :| 0 <= i < |keeps| && FirstBestKeep(keeps, other, hasCrib, i)
      && V1Choice(cards, hasCrib).value == Choice(Some(keeps[i]), Ratio(HandTotal(keeps[i], other, hasCrib) as real, |other|));
    RatioMonotone(HandTotal(keeps[k], other, hasCrib) as real, HandTotal(keeps[i], other, hasCrib) as real, |other|);
  }

  /* ------------------------------------------------------------ V3 rounds */

  /** The heap entries `(-hand_score, keep)`, pushed in the order of the keeps. */
  function V3Entries(keeps: seq<seq<Card>>, other: seq<Card>, hasCrib: bool): seq<Entry>
  {
    seq(|keeps|, i requires 0 <= i < |keeps| => Entry(-1 * (HandTotal(keeps[i], other, hasCrib) as int), keeps[i]))
  }

  /** The summed crib estimate of each keep: the hand's other cards are thrown. */
  function CribOfKeep(handSet: seq<Card>, other: seq<Card>, hasCrib: bool): seq<Card> -> Result<real, BotError>
  {
    keep => CribSum(Minus(handSet, keep), other, hasCrib)
  }

  /**
    The `for _ in xrange(3)` loop of `KyleBotV3._get_best_hand`: pop the
    best entry, add the crib estimate `cribOf` gives its keep, and keep it
    when the total beats the best so far.
  */
  function V3Rounds(remaining: seq<Entry>, n: nat, best: real, keep: Option<seq<Card>>,
                    cribOf: seq<Card> -> Result<real, BotError>): Result<(Option<seq<Card>>, real), BotError>
  {
    if n == 0 then Ok((keep, best))
    else if remaining == [] then Err(EmptyHeap)
    else
      var m := MinIndex(remaining);
      var e := remaining[m];
      var crib := cribOf(e.keep);
      if crib.Err? then Err(crib.error)
      else
        var total := EntryTotal(e, cribOf);
        if total > best then V3Rounds(RemoveAt(remaining, m), n - 1, total, Some(e.keep), cribOf)
        else V3Rounds(RemoveAt(remaining, m), n - 1, best, keep, cribOf)
  }

  /** `KyleBotV3._get_best_hand` on a hand whose `all_cards` are `cards`. */
  function V3Choice(cards: seq<Card>, hasCrib: bool): Result<Choice, BotError>
  {
    var handSet := Dedup(cards);
    var other := Unseen(handSet);
    var entries := V3Entries(Combinations(handSet, 4), other, hasCrib);
    ChoiceOf(V3Rounds(entries, 3, FLOOR, None, CribOfKeep(handSet, other, hasCrib)), |other|)
  }

  /** The end of `KyleBotV3._get_best_hand`: the best keep and its total divided by the number of unseen cards. */
  function ChoiceOf(rounds: Result<(Option<seq<Card>>, real), BotError>, unseen: nat): Result<Choice, BotError>
  {
    if rounds.Err? then Err(rounds.error)
    else if unseen == 0 then Err(ZeroDivision)
    else Ok(Choice(rounds.value.0, Ratio(rounds.value.1, unseen)))
  }

  /** The total `-1 * negative_hand_score + crib_score` of a popped entry. */
  function EntryTotal(e: Entry, cribOf: seq<Card> -> Result<real, BotError>): real
    requires cribOf(e.keep).Ok?
  {
    (-1 * e.neg) as real + cribOf(e.keep).value
  }

  /**
    Rounds that succeed had `n` entries to pop and found the crib estimate
    of every popped entry; they end with a best total no lower than the
    start nor than any popped entry's total, and either keep the starting
    choice or end on one of the popped entries with its total.
  */
  lemma {:induction false} V3RoundsPicksPopped(remaining: seq<Entry>, n: nat, best: real, keep: Option<seq<Card>>,
                                                cribOf: seq<Card> -> Result<real, BotError>)
    ensures var r := V3Rounds(remaining, n, best, keep, cribOf);
      r.Ok? ==>
        && n <= |remaining|
        && |Pops(remaining, n)| == n
        && r.value.1 >= best
        && (forall j :: 0 <= j < n ==> cribOf(Pops(remaining, n)[j].keep).Ok?)
        && (forall j :: 0 <= j < n ==> EntryTotal(Pops(remaining, n)[j], cribOf) <= r.value.1)
        && (r.value == (keep, best) ||
            exists j :: 0 <= j < n && r.value == (Some(Pops(remaining, n)[j].keep), EntryTotal(Pops(remaining, n)[j], cribOf)))
  {
    var r := V3Rounds(remaining, n, best, keep, cribOf);
    if r.Ok? && n > 0 {
      var m := MinIndex(remaining);
      var e := remaining[m];
      var rest := RemoveAt(remaining, m);
      var total := EntryTotal(e, cribOf);
      var next := if total > best then total else best;
      var nextKeep := if total > best then Some(e.keep) else keep;
      assert r == V3Rounds(rest, n - 1, next, nextKeep, cribOf);
      V3RoundsPicksPopped(rest, n - 1, next, nextKeep, cribOf);
      var later := Pops(rest, n - 1);
      var pops := Pops(remaining, n);
      assert pops == [e] + later;
      assert forall j :: 0 < j < n ==> pops[j] == later[j - 1];
      if r.value != (nextKeep, next) {
        var j :| 0 <= j < n - 1 && r.value == (Some(later[j].keep), EntryTotal(later[j], cribOf));
        assert pops[j + 1] == later[j];
      } else if total > best {
        assert r.value == (Some(pops[0].keep), EntryTotal(pops[0], cribOf));
      }
    } else if r.Ok? {
      PopsLength(remaining, 0);
    }
  }

  /**
    The tie-break of the rounds' strict `>`: when no popped entry totals
    more than the start, the starting choice stands; otherwise the result is
    the first popped entry with the largest total, which is above the start
    and above every entry popped before it.
  */
  lemma {:induction false} V3RoundsFirstBest(remaining: seq<Entry>, n: nat, best: real, keep: Option<seq<Card>>,
                                              cribOf: seq<Card> -> Result<real, BotError>)
    ensures var r := V3Rounds(remaining, n, best, keep, cribOf);
      r.Ok? ==>
        && n <= |remaining|
        && |Pops(remaining, n)| == n
        && (forall j :: 0 <= j < n ==> cribOf(Pops(remaining, n)[j].keep).Ok?)
        && ((forall j :: 0 <= j < n ==> EntryTotal(Pops(remaining, n)[j], cribOf) <= best) ==> r.value == (keep, best))
        && ((exists j :: 0 <= j < n && EntryTotal(Pops(remaining, n)[j], cribOf) > best) ==>
              exists j :: 0 <= j < n && FirstBestAt(Pops(remaining, n), j, best, cribOf)
                && r.value == (Some(Pops(remaining, n)[j].keep), EntryTotal(Pops(remaining, n)[j], cribOf)))
  {
    var r := V3Rounds(remaining, n, best, keep, cribOf);
    V3RoundsPicksPopped(remaining, n, best, keep, cribOf);
    if r.Ok? && n > 0 {
      var m := MinIndex(remaining);
      var e := remaining[m];
      var rest := RemoveAt(remaining, m);
      var total := EntryTotal(e, cribOf);
      var next := if total > best then total else best;
      var nextKeep := if total > best then Some(e.keep) else keep;
      assert r == V3Rounds(rest, n - 1, next, nextKeep, cribOf);
      V3RoundsFirstBest(rest, n - 1, next, nextKeep, cribOf);
      var later := Pops(rest, n - 1);
      var pops := Pops(remaining, n);
      assert pops == [e] + later;
      assert forall j :: 0 < j < n ==> pops[j] == later[j - 1];
      if exists j :: 0 <= j < n - 1 && EntryTotal(later[j], cribOf) > next {
        var j :| 0 <= j < n - 1 && FirstBestAt(later, j, next, cribOf)
          && r.value == (Some(later[j].keep), EntryTotal(later[j], cribOf));
        FirstBestShift(e, later, j, best, next, cribOf);
      } else if total > best {
        assert FirstBestAt(pops, 0, best, cribOf);
      } else {
        forall j | 0 <= j < n ensures EntryTotal(pops[j], cribOf) <= best {
          if j > 0 {
            assert pops[j] == later[j - 1];
          }
        }
      }
    }
  }

  /** Entry `j` of `pops` totals more than `start` and more than every entry before it. */
  predicate FirstBestAt(pops: seq<Entry>, j: nat, start: real, cribOf: seq<Card> -> Result<real, BotError>)
    requires j < |pops| && forall i :: 0 <= i <= j ==> cribOf(pops[i].keep).Ok?
  {
    && start < EntryTotal(pops[j], cribOf)
    && forall i :: 0 <= i < j ==> EntryTotal(pops[i], cribOf) < EntryTotal(pops[j], cribOf)
  }

  /** A first best entry of the later pops stays first best once `e`, which it beats, is popped in front. */
  lemma FirstBestShift(e: Entry, later: seq<Entry>, j: nat, best: real, next: real,
                       cribOf: seq<Card> -> Result<real, BotError>)
    requires j < |later| && cribOf(e.keep).Ok? && forall i :: 0 <= i < |later| ==> cribOf(later[i].keep).Ok?
    requires best <= next && EntryTotal(e, cribOf) <= next
    requires FirstBestAt(later, j, next, cribOf)
    ensures FirstBestAt([e] + later, j + 1, best, cribOf)
  {
    var pops := [e] + later;
    forall i | 0 <= i < j + 1 ensures EntryTotal(pops[i], cribOf) < EntryTotal(pops[j + 1], cribOf) {
      if i > 0 {
        assert pops[i] == later[i - 1];
      }
    }
  }

  /**
    When no crib estimate fails, the rounds fail exactly when there are
    fewer than `n` entries to pop, with the empty-heap error.
  */
  lemma {:induction false} V3RoundsFailOnlyEmpty(remaining: seq<Entry>, n: nat, best: real, keep: Option<seq<Card>>,
                                                  cribOf: seq<Card> -> Result<real, BotError>)
    requires forall k :: cribOf(k).Ok?
    ensures V3Rounds(remaining, n, best, keep, cribOf).Err? <==> |remaining| < n
    ensures V3Rounds(remaining, n, best, keep, cribOf).Err? ==> V3Rounds(remaining, n, best, keep, cribOf).error == EmptyHeap
  {
    if n > 0 && remaining != [] {
      var m := MinIndex(remaining);
      var rest := RemoveAt(remaining, m);
      var total := EntryTotal(remaining[m], cribOf);
      var next := if total > best then total else best;
      var nextKeep := if total > best then Some(remaining[m].keep) else keep;
      assert V3Rounds(remaining, n, best, keep, cribOf) == V3Rounds(rest, n - 1, next, nextKeep, cribOf);
      assert |rest| == |remaining| - 1;
      V3RoundsFailOnlyEmpty(rest, n - 1, next, nextKeep, cribOf);
    }
  }

  /** A failing crib estimate for the first entry popped fails the rounds with its error. */
  lemma V3RoundsFirstCribFails(remaining: seq<Entry>, n: nat, best: real, keep: Option<seq<Card>>,
                               cribOf: seq<Card> -> Result<real, BotError>)
    requires n > 0 && remaining != []
    requires cribOf(remaining[MinIndex(remaining)].keep).Err?
    ensures V3Rounds(remaining, n, best, keep, cribOf) == Err(cribOf(remaining[MinIndex(remaining)].keep).error)
  {
  }

  /** The crib estimates of the keeps never fail when three or more cards are unseen, and always do with one or two. */
  lemma CribOfKeepFails(handSet: seq<Card>, hasCrib: bool, keep: seq<Card>)
    ensures var other := Unseen(handSet);
      CribOfKeep(handSet, other, hasCrib)(keep).Err? <==> 0 < |other| < 3
    ensures var other := Unseen(handSet);
      CribOfKeep(handSet, other, hasCrib)(keep).Err? ==> CribOfKeep(handSet, other, hasCrib)(keep).error == ZeroDivision
  {
    var other := Unseen(handSet);
    UnseenFacts(handSet);
    CribSumFails(Minus(handSet, keep), other, hasCrib);
  }

  /**
    Three rounds over any entries, divided by `unseen`: the keep is none
    (the floor per unseen card) or one of the three entries popped first,
    reported with its total per unseen card, and no popped entry's total is
    larger. The three popped entries are the three least: no entry left in
    the heap is below a popped one. Ties go to the first popped: the keep is
    none when no popped total beats the floor, and otherwise the first
    popped entry whose total beats the floor and every entry popped before it. When no crib estimate fails, the choice fails exactly when fewer
    than three entries or no unseen card are left; a failing estimate for
    the first popped entry is the choice's error.
  */
  lemma TopThreeChoice(entries: seq<Entry>, cribOf: seq<Card> -> Result<real, BotError>, unseen: nat)
    ensures var c := ChoiceOf(V3Rounds(entries, 3, FLOOR, None, cribOf), unseen);
      c.Ok? ==>
        && 3 <= |entries| && unseen > 0 && |Pops(entries, 3)| == 3
        && (forall j :: 0 <= j < 3 ==> cribOf(Pops(entries, 3)[j].keep).Ok?)
        && (forall j :: 0 <= j < 3 ==> Ratio(EntryTotal(Pops(entries, 3)[j], cribOf), unseen) <= c.value.expected)
        && (c.value == Choice(None, Ratio(FLOOR, unseen)) ||
            exists j :: 0 <= j < 3 && c.value == Choice(Some(Pops(entries, 3)[j].keep), Ratio(EntryTotal(Pops(entries, 3)[j], cribOf), unseen)))
        && (forall e, j :: e in multiset(entries) - multiset(Pops(entries, 3)) && 0 <= j < 3 ==>
              !EntryLess(e, Pops(entries, 3)[j]))
        && ((forall j :: 0 <= j < 3 ==> EntryTotal(Pops(entries, 3)[j], cribOf) <= FLOOR) ==>
              c.value == Choice(None, Ratio(FLOOR, unseen)))
        && ((exists j :: 0 <= j < 3 && EntryTotal(Pops(entries, 3)[j], cribOf) > FLOOR) ==>
              exists j :: 0 <= j < 3 && FirstBestAt(Pops(entries, 3), j, FLOOR, cribOf)
                && c.value == Choice(Some(Pops(entries, 3)[j].keep), Ratio(EntryTotal(Pops(entries, 3)[j], cribOf), unseen)))
    ensures (forall k :: cribOf(k).Ok?) ==>
      var c := ChoiceOf(V3Rounds(entries, 3, FLOOR, None, cribOf), unseen);
      (c.Err? <==> |entries| < 3 || unseen == 0) && (c.Err? && |entries| < 3 ==> c.error == EmptyHeap)
    ensures entries != [] && cribOf(entries[MinIndex(entries)].keep).Err? ==>
      ChoiceOf(V3Rounds(entries, 3, FLOOR, None, cribOf), unseen) == Err(cribOf(entries[MinIndex(entries)].keep).error)
  {
    var rounds := V3Rounds(entries, 3, FLOOR, None, cribOf);
    V3RoundsPicksPopped(entries, 3, FLOOR, None, cribOf);
    V3RoundsFirstBest(entries, 3, FLOOR, None, cribOf);
    if forall k :: cribOf(k).Ok? {
      V3RoundsFailOnlyEmpty(entries, 3, FLOOR, None, cribOf);
    }
    if entries != [] && cribOf(entries[MinIndex(entries)].keep).Err? {
      V3RoundsFirstCribFails(entries, 3, FLOOR, None, cribOf);
    }
    if 3 <= |entries| {
      PopOrderFacts(entries, 3);
    }
    if rounds.Ok? && unseen > 0 {
      var pops := Pops(entries, 3);
      forall j | 0 <= j < 3
        ensures Ratio(EntryTotal(pops[j], cribOf), unseen) <= Ratio(rounds.value.1, unseen)
      {
        RatioMonotone(EntryTotal(pops[j], cribOf), rounds.value.1, unseen);
      }
    }
  }

  /**
    What `KyleBotV3` chooses: the keep is none (the floor per starter) or
    one of the three entries popped first, which are the best by hand score
    (no keep left in the heap has a higher hand total than a popped one);
    its hand score plus crib estimate, per starter, is reported, no popped
    entry totals more, and among equal totals the first popped wins. With three or more unseen
    cards it fails exactly when the hand has fewer than three 4-card keeps
    (`heappop` on an empty heap); with one or two unseen cards the first
    popped keep makes the crib estimate divide by zero.
  */
  lemma V3ChoiceFacts(cards: seq<Card>, hasCrib: bool)
    ensures var handSet := Dedup(cards);
      var other := Unseen(handSet);
      var entries := V3Entries(Combinations(handSet, 4), other, hasCrib);
      var cribOf := CribOfKeep(handSet, other, hasCrib);
      var c := V3Choice(cards, hasCrib);
      && (c.Ok? ==>
            && 3 <= |entries| && |other| > 0 && |Pops(entries, 3)| == 3
            && (forall j :: 0 <= j < 3 ==> cribOf(Pops(entries, 3)[j].keep).Ok?)
            && (forall j :: 0 <= j < 3 ==> Ratio(EntryTotal(Pops(entries, 3)[j], cribOf), |other|) <= c.value.expected)
            && (c.value == Choice(None, Ratio(FLOOR, |other|)) ||
                exists j :: 0 <= j < 3 && c.value == Choice(Some(Pops(entries, 3)[j].keep), Ratio(EntryTotal(Pops(entries, 3)[j], cribOf), |other|)))
            && (forall e, j :: e in multiset(entries) - multiset(Pops(entries, 3)) && 0 <= j < 3 ==>
                  Pops(entries, 3)[j].neg <= e.neg)
            && ((forall j :: 0 <= j < 3 ==> EntryTotal(Pops(entries, 3)[j], cribOf) <= FLOOR) ==>
                  c.value == Choice(None, Ratio(FLOOR, |other|)))
            && ((exists j :: 0 <= j < 3 && EntryTotal(Pops(entries, 3)[j], cribOf) > FLOOR) ==>
                  exists j :: 0 <= j < 3 && FirstBestAt(Pops(entries, 3), j, FLOOR, cribOf)
                    && c.value == Choice(Some(Pops(entries, 3)[j].keep), Ratio(EntryTotal(Pops(entries, 3)[j], cribOf), |other|))))
      && (|other| >= 3 ==> (c.Err? <==> |entries| < 3) && (c.Err? ==> c.error == EmptyHeap))
      && (0 < |other| < 3 && entries != [] ==> c == Err(ZeroDivision))
  {
    var handSet := Dedup(cards);
    var other := Unseen(handSet);
    var entries := V3Entries(Combinations(handSet, 4), other, hasCrib);
    var cribOf := CribOfKeep(handSet, other, hasCrib);
    TopThreeChoice(entries, cribOf, |other|);
    if |other| >= 3 {
      forall k ensures cribOf(k).Ok? {
        CribOfKeepFails(handSet, hasCrib, k);
      }
    }
    if 0 < |other| < 3 && entries != [] {
      CribOfKeepFails(handSet, hasCrib, entries[MinIndex(entries)].keep);
    }
  }

  /* ------------------------------------------------------------ the throw */

  /**
    `ask_for_crib_throw` once the keep is chosen: the hand's cards minus the
    keep must be exactly two cards, which are then thrown.
  */
  function ThrowOf(cards: seq<Card>, choice: Result<Choice, BotError>): Result<seq<Card>, BotError>
  {
    if choice.Err? then Err(choice.error)
    else if choice.value.keep.None? then Err(NoKeep)
    else
      var toThrow := Minus(Dedup(cards), choice.value.keep.value);
      if |toThrow| != 2 then Err(WrongThrowCount) else Ok([toThrow[0], toThrow[1]])
  }

  /** Two distinct cards of the hand can always be thrown. */
  lemma ThrowHeld(cards: seq<Card>, a: Card, b: Card)
    requires a in cards && b in cards && a != b
    ensures multiset([a, b]) <= multiset(cards)
  {
    var i :| 0 <= i < |cards| && cards[i] == a;
    var j :| 0 <= j < |cards| && cards[j] == b;
    var rest := cards[..i] + cards[i + 1..];
    assert cards == cards[..i] + [a] + cards[i + 1..];
    assert multiset(cards) == multiset(rest) + multiset{a};
    assert b in rest by {
      if j < i {
        assert rest[j] == b;
      } else {
        assert rest[j - 1] == b;
      }
    }
    assert b in multiset(rest);
  }

  /** The throw `ThrowOf` picks is two distinct cards the hand holds. */
  lemma ThrowOfHeld(cards: seq<Card>, choice: Result<Choice, BotError>)
    requires ThrowOf(cards, choice).Ok?
    ensures multiset(ThrowOf(cards, choice).value) <= multiset(cards)
  {
    var toThrow := Minus(Dedup(cards), choice.value.keep.value);
    DedupFacts(cards);
    MinusFacts(Dedup(cards), choice.value.keep.value);
    ThrowHeld(cards, toThrow[0], toThrow[1]);
  }

  /**
    Dealt six distinct cards with no starter, a keep of four of them leaves
    exactly two to throw, and after the throw the hand holds exactly the
    kept cards.
  */
  lemma KeepAfterThrow(cards: seq<Card>, keep: seq<Card>, expected: real)
    requires |cards| == 6 && NoDuplicates(cards)
    requires keep in Combinations(cards, 4)
    ensures ThrowOf(cards, Ok(Choice(Some(keep), expected))).Ok?
    ensures var thrown := ThrowOf(cards, Ok(Choice(Some(keep), expected))).value;
      |RemoveAll(cards, thrown)| == 4 && forall c :: c in RemoveAll(cards, thrown) <==> c in keep
  {
    var choice := Ok(Choice(Some(keep), expected));
    DedupOfDistinct(cards);
    KeepOfDistinct(cards, keep);
    MinusSize(cards, keep);
    MinusFacts(cards, keep);
    ThrowOfHeld(cards, choice);
    var thrown := ThrowOf(cards, choice).value;
    assert thrown == Minus(cards, keep);
    RemoveThrown(cards, thrown, keep);
  }

  /** A combination of cards without repeats has no repeats and only cards from the list. */
  lemma KeepOfDistinct(cards: seq<Card>, keep: seq<Card>)
    requires NoDuplicates(cards) && keep in Combinations(cards, 4)
    ensures NoDuplicates(keep) && |keep| == 4
    ensures forall c :: c in keep ==> c in cards
  {
    var i :| 0 <= i < |Combinations(cards, 4)| && Combinations(cards, 4)[i] == keep;
    CombinationsSound(cards, 4, i);
    var idx :| IncreasingIndices(idx, 0, |cards|) && |idx| == 4 && keep == Pick(cards, idx);
    forall a, b | 0 <= a < b < |keep| ensures keep[a] != keep[b] {
      assert keep[a] == cards[idx[a]] && keep[b] == cards[idx[b]];
    }
    forall c | c in keep ensures c in cards {
      var a :| 0 <= a < |keep| && keep[a] == c;
      assert cards[idx[a]] == c;
    }
  }

  /**
    Removing the thrown cards, all held, from six distinct cards leaves four
    cards: exactly the ones not thrown.
  */
  lemma RemoveThrown(cards: seq<Card>, thrown: seq<Card>, keep: seq<Card>)
    requires |cards| == 6 && NoDuplicates(cards) && |thrown| == 2
    requires multiset(thrown) <= multiset(cards)
    requires forall c :: c in thrown <==> c in cards && c !in keep
    requires forall c :: c in keep ==> c in cards
    ensures |RemoveAll(cards, thrown)| == 4
    ensures forall c :: c in RemoveAll(cards, thrown) <==> c in keep
  {
    AllHeldIffContained(cards, thrown);
    var left := RemoveAll(cards, thrown);
    assert multiset(left) == multiset(cards) - multiset(thrown);
    assert |left| == |multiset(left)| == |multiset(cards)| - |multiset(thrown)| == 4;
    forall c ensures c in left <==> c in keep {
      DistinctCount(cards, c);
      assert c in left <==> c in multiset(left);
      assert c in thrown <==> c in multiset(thrown);
    }
  }

  /** A card occurs at most once in a list without repeats. */
  lemma {:induction false} DistinctCount(s: seq<Card>, c: Card)
    requires NoDuplicates(s)
    ensures multiset(s)[c] <= 1
  {
    if s != [] {
      assert s == [s[0]] + s[1..];
      DistinctCount(s[1..], c);
      if s[0] == c {
        assert c !in s[1..];
      }
    }
  }

  /** `set(cards)` of cards without repeats keeps them in place. */
  lemma {:induction false} DedupOfDistinct(cards: seq<Card>)
    requires NoDuplicates(cards)
    ensures Dedup(cards) == cards
  {
    if cards != [] {
      var init := cards[..|cards| - 1];
      DedupOfDistinct(init);
      assert cards[|cards| - 1] !in init;
      assert cards == init + [cards[|cards| - 1]];
    }
  }

  /**
    The end of `ask_for_crib_throw`, shared by both bots: throw the cards of
    the hand outside the chosen keep.
  */
  method ThrowAway(hand: Hand, choice: Result<Choice, BotError>) returns (r: Result<seq<Card>, BotError>)
    modifies hand
    ensures r == ThrowOf(old(hand.cards), choice)
    ensures hand.starter == old(hand.starter)
    ensures r.Ok? ==> hand.cards == RemoveAll(old(hand.cards), r.value)
    ensures r.Err? ==> hand.cards == old(hand.cards)
  {
    if choice.Err? {
      return Err(choice.error);
    }
    if choice.value.keep.None? {
      return Err(NoKeep);
    }
    var toThrow := Minus(Dedup(hand.cards), choice.value.keep.value);
    if |toThrow| != 2 {
      return Err(WrongThrowCount);
    }
    ThrowOfHeld(hand.cards, choice);
    var thrown := hand.ThrowCards([toThrow[0], toThrow[1]]);
    r := Ok(thrown.value);
  }

  /** The first loop of `KyleBotV3._get_best_hand`: push `(-1 * hand_score, keep)` for every keep. */
  method RankKeeps(keeps: seq<seq<Card>>, other: seq<Card>, hasCrib: bool) returns (heap: ScoreHeap)
    ensures fresh(heap)
    ensures heap.entries == V3Entries(keeps, other, hasCrib)
  {
    ghost var entries := V3Entries(keeps, other, hasCrib);
    heap := new ScoreHeap();
    for i := 0 to |keeps|
      invariant heap.entries == entries[..i]
    {
      var handScore := ScoreHand(keeps[i], other, hasCrib);
      heap.Push(Entry(-1 * (handScore as int), keeps[i]));
      assert entries[..i + 1] == entries[..i] + [entries[i]];
    }
    assert entries[..|keeps|] == entries;
  }

  /**
    The second loop of `KyleBotV3._get_best_hand`: three pops, each popped
    keep weighed with its crib estimate, the best total kept.
  */
  method BestOfTop(heap: ScoreHeap, handSet: seq<Card>, other: seq<Card>, hasCrib: bool)
    returns (r: Result<(Option<seq<Card>>, real), BotError>)
    modifies heap
    ensures r == V3Rounds(old(heap.entries), 3, FLOOR, None, CribOfKeep(handSet, other, hasCrib))
  {
    ghost var cribOf := CribOfKeep(handSet, other, hasCrib);
    ghost var entries := heap.entries;
    var bestKeep: Option<seq<Card>> := None;
    var best := FLOOR;
    for round := 0 to 3
      invariant V3Rounds(heap.entries, 3 - round, best, bestKeep, cribOf)
                == V3Rounds(entries, 3, FLOOR, None, cribOf)
    {
      var next := PlayRound(heap, handSet, other, hasCrib, 3 - round, best, bestKeep);
      if next.Err? {
        return next;
      }
      bestKeep, best := next.value.0, next.value.1;
    }
    r := Ok((bestKeep, best));
  }

  /**
    One pass of that loop: pop the best entry, add its crib estimate to its
    hand score, and keep it when the total beats `best`. The rounds left
    from here come out the same as the rounds still to play afterwards.
  */
  method PlayRound(heap: ScoreHeap, handSet: seq<Card>, other: seq<Card>, hasCrib: bool,
                   n: nat, best: real, bestKeep: Option<seq<Card>>)
    returns (next: Result<(Option<seq<Card>>, real), BotError>)
    requires n > 0
    modifies heap
    ensures next.Err? ==> next == V3Rounds(old(heap.entries), n, best, bestKeep, CribOfKeep(handSet, other, hasCrib))
    ensures next.Ok? ==>
      V3Rounds(old(heap.entries), n, best, bestKeep, CribOfKeep(handSet, other, hasCrib))
      == V3Rounds(heap.entries, n - 1, next.value.1, next.value.0, CribOfKeep(handSet, other, hasCrib))
  {
    ghost var cribOf := CribOfKeep(handSet, other, hasCrib);
    var popped := heap.Pop();
    if popped.None? {
      return Err(EmptyHeap);
    }
    var e := popped.value;
    var cardsToThrow := Minus(handSet, e.keep);
    var cribScore := CribForKeep(cardsToThrow, other, hasCrib);
    assert cribScore == cribOf(e.keep);
    if cribScore.Err? {
      return Err(cribScore.error);
    }
    var totalScore := (-1 * e.neg) as real + cribScore.value;
    assert totalScore == EntryTotal(e, cribOf);
    if totalScore > best {
      return Ok((Some(e.keep), totalScore));
    }
    return Ok((bestKeep, best));
  }

  /* ------------------------------------------------------------- the bots */

  /** `KyleBotV1`: judges each keep by its hand score alone. */
  class KyleBotV1 {
    var hand: Hand

    constructor(hand: Hand)
      ensures this.hand == hand
    {
      this.hand := hand;
    }

    method GetBestHand(hasCrib: bool) returns (r: Result<Choice, BotError>)
      ensures r == V1Choice(hand.AllCards(), hasCrib)
    {
      var handSet := Dedup(hand.AllCards());
      var other := Unseen(handSet);
      var keeps := Combinations(handSet, 4);
      ghost var cands := V1Scored(keeps, other, hasCrib);
      var bestKeep: Option<seq<Card>> := None;
      var best := FLOOR;
      for i := 0 to |keeps|
        invariant Best(cands[i..], best, bestKeep) == Best(cands, FLOOR, None)
      {
        var handScore := ScoreHand(keeps[i], other, hasCrib);
        var totalScore := handScore as real;
        assert cands[i..][1..] == cands[i + 1..];
        if totalScore > best {
          best := totalScore;
          bestKeep := Some(keeps[i]);
        }
      }
      if |other| == 0 {
        return Err(ZeroDivision);
      }
      r := Ok(Choice(bestKeep, Ratio(best, |other|)));
    }

    method AskForCribThrow(hasCrib: bool) returns (r: Result<seq<Card>, BotError>)
      modifies hand
      ensures r == ThrowOf(old(hand.cards), V1Choice(old(hand.AllCards()), hasCrib))
      ensures r.Ok? ==> hand.cards == RemoveAll(old(hand.cards), r.value)
      ensures r.Err? ==> hand.cards == old(hand.cards)
      ensures hand.starter == old(hand.starter)
    {
      var choice := GetBestHand(hasCrib);
      r := ThrowAway(hand, choice);
    }
  }

  /** `KyleBotV3`: ranks keeps by hand score, then weighs the top three with their expected crib score. */
  class KyleBotV3 {
    var hand: Hand

    constructor(hand: Hand)
      ensures this.hand == hand
    {
      this.hand := hand;
    }

    method GetBestHand(hasCrib: bool) returns (r: Result<Choice, BotError>)
      ensures r == V3Choice(hand.AllCards(), hasCrib)
    {
      ghost var cards := hand.AllCards();
      var handSet := Dedup(hand.AllCards());
      var other := Unseen(handSet);
      var heap := RankKeeps(Combinations(handSet, 4), other, hasCrib);
      var rounds := BestOfTop(heap, handSet, other, hasCrib);
      assert hand.AllCards() == cards;
      assert rounds == V3Rounds(V3Entries(Combinations(handSet, 4), other, hasCrib), 3, FLOOR, None, CribOfKeep(handSet, other, hasCrib));
      if rounds.Err? {
        return Err(rounds.error);
      }
      if |other| == 0 {
        return Err(ZeroDivision);
      }
      r := Ok(Choice(rounds.value.0, Ratio(rounds.value.1, |other|)));
    }

    method AskForCribThrow(hasCrib: bool) returns (r: Result<seq<Card>, BotError>)
      modifies hand
      ensures r == ThrowOf(old(hand.cards), V3Choice(old(hand.AllCards()), hasCrib))
      ensures r.Ok? ==> hand.cards == RemoveAll(old(hand.cards), r.value)
      ensures r.Err? ==> hand.cards == old(hand.cards)
      ensures hand.starter == old(hand.starter)
    {
      var choice := GetBestHand(hasCrib);
      r := ThrowAway(hand, choice);
    }
  }
}
