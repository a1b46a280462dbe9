# Cribbage hand scoring and crib-throw search

This project models the core of a small cribbage program in Dafny. It covers
two parts.

1. The scorer and its data (`cribbage.py`):
   - the validated `Card` value, with its equality and its order (rank, then suit name);
   - the 52-card `Deck`, with its memo and the bounds check of `draw`;
   - the mutable `Hand`: its held cards, its starter card, and `throw_cards`;
   - `ranged_powerset`;
   - `Scorer.score`: pairs, fifteens, runs, flush, nobs and heels, returned as an itemised breakdown.
2. The discard search of the bots (`kyle_ai.py`):
   - `KyleBotV1` tries every 4-card keep against every unseen starter and keeps the first strict maximum.
   - `KyleBotV3` ranks the keeps by hand score in a `heapq` of negated scores. It then weighs only the top three, adding the exact mean crib score over every 2-card completion of the crib.
   - `ask_for_crib_throw` throws the two cards outside the chosen keep.

Layout:

- Module `ScoreRules` states each score item as a function of the sorted cards.
- Module `Scorer` holds the scanning loops of `Scorer` (`is_run`, `has_run`, `has_pairs`, the runs loop with its `break`). Each loop is a method proved to compute the matching function.
- Module `ScoringFacts` relates the items to independent definitions:
  - pairs: 2 for every two cards of equal rank;
  - fifteens: a take-or-leave count of the selections worth 15;
  - runs: the longest run times the number of runs of that length.

  It also proves that the score depends only on which cards are held.
- Module `KyleAi` follows the same pattern for the bots:
  - the loops of `_get_best_hand` and `_score_from_crib` are methods proved against the functions `V1Choice`, `V3Choice`, `CribEstimate` and `CribSum`;
  - lemmas then state what those functions choose.

Python exceptions become `Err` values:

- `ValueError` of the card constructor, of `draw` and of `list.remove`;
- `ZeroDivisionError` of the float divisions;
- `IndexError` of `heappop`;
- the failed `assert` on the throw size;
- the `TypeError` of `set(best_hand)` when no keep beat the floor and `best_hand` is still `None` (kyle_ai.py:58), reported as `NoKeep`.

The quirks of the code are modelled as written and proved:

- Nobs is never scored, because the heels list is never empty once a starter is set. The docstring of `Scorer.score` (cribbage.py:271) still lists nobs for the Jack of the starter's suit (`ScoreRules.NobsNeverCounted`).
- The runs item is gated on three *neighbouring* cards of the sorted hand, so a split run such as 3, 4, 4, 5, K scores 0.
- The flush count includes the starter.
- The crib estimate scores every crib with `has_crib` false, so heels never counts in it.
- `heapq` compares the tuples `(-score, keep)`, so equal hand scores are broken by comparing the keeps card by card (`ScoreHeap.EntryLess`).
- When a later card is missing, `throw_cards` keeps the removals it has already made (`Hands.Hand.ThrowCards`).
- Suits compare as their name strings: "clubs" < "diamonds" < "hearts" < "spades".


## Model

| member | source | states |
|---|---|---|
| Cards.MakeCard | cribbage.py:106-113 | The card is built exactly when the rank is 1..13 and the suit name is one of the four; otherwise `NoSuchCard`. The built card has the given rank and suit. |
| Cards.ParseSuit | cribbage.py:41-46 | A suit found for a name has that name; no suit is found exactly when no suit has that name. |
| Cards.ValueIsTabled | cribbage.py:69-83 | The point value of every card is its entry in the value table (face cards count 10). |
| Cards.CompareBySuitPosition | cribbage.py:121-130 | `__cmp__` is negative exactly when the rank is lower, or the rank is equal and the suit name comes first alphabetically. It is 0 exactly for the same card. |
| Cards.CompareConsistentWithEquality | cribbage.py:118-130 | `__cmp__` is 0 exactly when `__eq__` holds (rank and suit match). Its sign flips when the arguments are swapped. |
| Cards.CardLessStrictTotal | cribbage.py:121-130 | The card order is irreflexive, transitive and connected on distinct cards. |
| Cards.FullDeck | cribbage.py:161-168 | `all_cards` has 52 pairwise-distinct cards. Every card is present, at position (rank - 1) * 4 + suit index. |
| Cards.Deck.constructor | cribbage.py:155-158 | The deck starts with an empty memo. |
| Cards.Deck.AllCards | cribbage.py:157-168 | Returns the full deck and leaves it memoised. A later call returns the memo, which is the same deck. |
| Cards.Deck.Draw | cribbage.py:170-177 | Fails exactly when the count is below 0 or above 52. Otherwise returns that many pairwise-distinct cards. |
| Combinatorics.CombinationsSizes | cribbage.py:96-99 | `itertools.combinations(s, k)` yields Binomial(len(s), k) tuples of exactly k items each. |
| Combinatorics.CombinationsSound | cribbage.py:96-99 | Every combination is the items of `s` at some k strictly increasing positions. |
| Combinatorics.CombinationsComplete | cribbage.py:96-99 | Every choice of items at strictly increasing positions is among the combinations. |
| Combinatorics.CombinationsDistinct | kyle_ai.py:35 | Over a list without repeats, no combination is yielded twice. |
| Combinatorics.RangedPowersetGraded | cribbage.py:96-99 | Every member of `ranged_powerset(s, [lo, hi])` has between lo and hi items, and sizes never decrease. |
| Combinatorics.RangedPowersetBySize | cribbage.py:96-99 | For each size k, the members of size k are exactly `combinations(s, k)` in order when lo <= k <= hi, and there are none otherwise. |
| CardSort.OrderByKey | cribbage.py:121-130 | The card order is the order of the key (rank - 1) * 4 + suit position, and the key identifies the card. |
| CardSort.SortCardsCorrect | cribbage.py:274 | `sorted` keeps every card with its multiplicity and yields a non-decreasing list. |
| CardSort.SortedUnique | cribbage.py:274 | Two sorted arrangements of the same cards are equal, so the sorted hand is unique. |
| CardSets.DedupFacts | kyle_ai.py:29-30 | `set(cards)` holds exactly the cards of the list, none twice. |
| CardSets.MinusFacts | kyle_ai.py:31 | `xs - ys` holds exactly the cards of `xs` not in `ys`, and has no repeats when `xs` has none. |
| CardSets.MinusSize | kyle_ai.py:37 | Removing from a repeat-free `xs` a repeat-free `ys` that it contains leaves len(xs) - len(ys) cards. |
| CardSets.WithoutSize | kyle_ai.py:126 | `other_cards - set([starter_card])` for a starter among the other cards leaves one card fewer, none twice. |
| CardSets.UnseenFacts | kyle_ai.py:29-31 | The unseen cards are exactly the deck's cards outside the hand, none twice. |
| Hands.FirstIndex | cribbage.py:215 | The position found holds the card, and no earlier position does. |
| Hands.RemoveFirst | cribbage.py:215 | `list.remove` cuts out the first occurrence, leaving the others in order; the multiset loses exactly one copy. |
| Hands.AllHeldIffContained | cribbage.py:213-216 | The removals all find their card exactly when no card is named more often than the hand holds it. The remaining cards are then the hand minus the named ones. |
| Hands.FailedRemoval | cribbage.py:213-216 | A removal that finds its card gone means the list names more cards than the hand holds. |
| Hands.Hand.constructor | cribbage.py:183-187 | The hand holds the given cards and starter. |
| Hands.Hand.AllCards | cribbage.py:203-208 | `all_cards` is the held cards, followed by the starter when one is set. |
| Hands.Hand.AddStarterCard | cribbage.py:210-211 | Sets the starter and leaves the held cards unchanged. |
| Hands.Hand.ThrowCards | cribbage.py:213-216 | Succeeds exactly when every named card is held (counting repeats), returning the named cards and leaving the others in order. Otherwise it reports the first card no longer held, with the earlier removals made and the starter untouched. |
| ScoreRules.HeelsValue | cribbage.py:300-303 | The heels item is 2 exactly for a Jack starter when the player has the crib, and 0 otherwise. |
| ScoreRules.NobsNeverCounted | cribbage.py:300-309 | The nobs item is always 0, because the heels list is never empty once a starter is set. |
| ScoreRules.ItemsOf | cribbage.py:276-321 | The total is the sum of the items. Nobs is 0, heels is as above, and a crib flush is 0 or 5. |
| ScoreRules.ScoreOf | cribbage.py:262-323 | The same facts for `score` of a hand, computed from the sorted hand and starter. |
| Scorer.IsRun | cribbage.py:231-241 | `is_run` is true exactly for three or more cards whose ranks each rise by exactly 1. |
| Scorer.HasRun | cribbage.py:222-228 | `has_run` is true exactly when some three neighbouring cards form a run. |
| Scorer.HasPairs | cribbage.py:254-259 | `has_pairs` is true exactly when two neighbouring cards share a rank. |
| Scorer.PairsSection | cribbage.py:276-279 | The pairs item is the per-rank `2 * sum(xrange(1, count))`, counted only when `has_pairs` fires. |
| Scorer.RunsFromLargest | cribbage.py:286-293 | Walking a size-graded list from the end and stopping at the first size change after a run yields only copies of the longest run length, as many as there are runs of that length. |
| Scorer.CollectRuns | cribbage.py:286-293 | On the 3- to 5-card combinations this sums to the longest run length times the number of such runs. |
| Scorer.RunsSection | cribbage.py:284-293 | The runs list sums to the runs item: 0 unless `has_run` fires. |
| Scorer.FlushSection | cribbage.py:295-298 | The flush item is the flush points, dropped to 0 in the crib unless they are 5. |
| Scorer.ScoreSorted | cribbage.py:276-321 | The breakdown built from the sorted cards is the specified one. |
| Scorer.Score | cribbage.py:261-323 | `Scorer.score` of a `Hand` equals `ScoreOf` of its held cards and starter. |
| ScoringFacts.PairPointsForCount | cribbage.py:279 | A rank held n times scores n(n - 1) for pairs: 2, 6 or 12. |
| ScoringFacts.PairsAreSameRankSelections | cribbage.py:276-279 | On a sorted hand, the pairs item is 2 for every two positions holding equal ranks, and 0 when no rank repeats. |
| ScoringFacts.CombinationsWithSum | cribbage.py:281-282 | The k-card combinations worth t number exactly the take-or-leave count `Ways(s, k, t)`. |
| ScoringFacts.FifteensAreSelections | cribbage.py:281-282 | The fifteens item is 2 for every selection of 2 to 5 cards whose values sum to 15. |
| ScoringFacts.RunsScoreLongest | cribbage.py:284-293 | The runs item is 0 unless three neighbouring sorted cards form a run. It is then the longest run length times the number of runs of that length, and at least 3; shorter runs are not added. |
| ScoringFacts.RunsOfSortedHand | cribbage.py:274-293 | On an already sorted hand, the runs item is taken over the hand as it stands. |
| ScoringFacts.SplitRunNotCounted | cribbage.py:222-228 | For sorted ranks r, r+1, r+1, r+2 followed by a gap, positions 0, 1 and 3 form a run, yet the runs item is 0. |
| ScoringFacts.NoNeighbouringRun | cribbage.py:222-228 | The ranks r, r+1, r+1, r+2 followed by a gap hold no three neighbouring cards in a run. |
| ScoringFacts.CountSuitOfMultiset | cribbage.py:248 | Suit counts depend only on which cards are held. |
| ScoringFacts.FlushRange | cribbage.py:244-251 | `flush_points` is 0, or a suit count from 4 up to the number of cards. |
| ScoringFacts.FiveCardFlush | cribbage.py:244-251 | Five cards score a flush of 5 exactly when they are all of one suit. |
| ScoringFacts.FlushOfHandAndStarter | cribbage.py:295-298 | The flush item is taken over the hand together with its starter, and then passes the crib rule. |
| ScoringFacts.FlushIncludesStarter | cribbage.py:244-298 | Four hand cards, three of them in the starter's suit, score a flush of 4 outside the crib and 0 in it. |
| ScoringFacts.FourOfFive | cribbage.py:244-251 | Five cards with four of one suit have flush points 4. |
| ScoringFacts.SuitCountsSum | cribbage.py:248 | The four suit counts add up to the number of cards. |
| ScoringFacts.FlushOfMultiset | cribbage.py:244-251 | The flush points depend only on which cards are held. |
| ScoringFacts.ScoreOfMultiset | cribbage.py:274 | The whole breakdown depends only on which cards the hand holds, not on their order. |
| ScoreHeap.EntryLessStrictTotal | kyle_ai.py:116 | Tuple comparison of `(-score, keep)` is a strict total order. |
| ScoreHeap.MinIndexIsLeast | kyle_ai.py:121 | No entry is below the one a pop returns. |
| ScoreHeap.LeastIsUnique | kyle_ai.py:121 | The least entry is unique, so any heap layout pops the same entry. |
| ScoreHeap.PopsFromPushed | kyle_ai.py:120-121 | Successive pops return entries that were pushed, none more often than pushed. |
| ScoreHeap.PopsBestFirst | kyle_ai.py:120-121 | Successive pops come out best first. |
| ScoreHeap.PopsAreTop | kyle_ai.py:116-121 | An entry left in the heap after n pops is not below any popped entry, so the pops are the n least entries. |
| ScoreHeap.PopOrderFacts | kyle_ai.py:120-121 | n pops succeed exactly when n entries were pushed. They return n pushed entries, best first, and no entry left behind is below a popped one. |
| ScoreHeap.ScoreHeap.constructor | kyle_ai.py:106 | The heap list starts empty. |
| ScoreHeap.ScoreHeap.Push | kyle_ai.py:116 | `heappush` adds the entry. |
| ScoreHeap.ScoreHeap.Pop | kyle_ai.py:121 | `heappop` on an empty list fails. Otherwise it returns the least entry and removes exactly it. |
| KyleAi.RatioFacts | kyle_ai.py:50 | Helper for `V1ExpectedIsBestMean` and `TopThreeChoice` (real-division arithmetic, not a behaviour of its own): the normalised score times the number of unseen cards gives back the total, with the same sign. |
| KyleAi.RatioMonotone | kyle_ai.py:50 | Helper for `V1ExpectedIsBestMean` and `TopThreeChoice` (real-division arithmetic, not a behaviour of its own): normalising by the same count keeps the order of totals, both ways. |
| KyleAi.ScoreHand | kyle_ai.py:36-43 | One `Hand` of the keep gets each starter in turn. The summed `score` (not as crib) is the hand total. |
| KyleAi.HandTotalOfMultiset | kyle_ai.py:14-15 | The hand total does not depend on the order of the kept cards. |
| KyleAi.ScorePairs | kyle_ai.py:88-94 | The loop sums the crib-context score of throw + pair with the starter, and counts the pairs. |
| KyleAi.MeanOverPairs | kyle_ai.py:88-98 | The loop, division and sign give the crib mean over the given pairs. |
| KyleAi.ScoreFromCrib | kyle_ai.py:87-98 | `_score_from_crib` of V3 is the crib mean over every 2-card combination of the other cards. |
| KyleAi.CribMeanFacts | kyle_ai.py:87-98 | The mean fails exactly when there is no completion. Seen from the crib's owner, it is the summed crib score over the number of completions: at least 0 for the dealer, at most 0 for the opponent. |
| KyleAi.CribEstimateFacts | kyle_ai.py:87-98 | The crib estimate divides by zero exactly when fewer than two other cards are left. |
| KyleAi.SumResultsFails | kyle_ai.py:125-126 | The summed estimates fail exactly when some estimate fails, and then with the error of the first failing one. |
| KyleAi.EstimateFor | kyle_ai.py:126 | The call for the i-th starter is the i-th crib estimate. |
| KyleAi.AddEstimate | kyle_ai.py:126 | One pass adds the i-th estimate to the running sum, or stops with its error. |
| KyleAi.CribForKeep | kyle_ai.py:125-126 | The crib loop computes the summed crib estimates over every starter. |
| KyleAi.CribSumFails | kyle_ai.py:125-126 | With repeat-free other cards, the crib sum divides by zero exactly when one or two other cards remain. |
| KyleAi.BestIsFirstMaximum | kyle_ai.py:47-49 | The strict-`>` running best ends at the largest total, on the first candidate reaching it, or keeps the start when none beats it. |
| KyleAi.V1BestFacts | kyle_ai.py:33-49 | Over the keeps, the running best from -1000 is the first keep with the largest hand total, or none when there is no keep. |
| KyleAi.V1ChoiceFacts | kyle_ai.py:27-51 | V1 fails exactly when no card is unseen. With four or more distinct cards, it picks the first 4-card keep with the largest total over the unseen starters, reported per unseen card. With fewer, it reports no keep and -1000 per unseen card. |
| KyleAi.V1ExpectedIsBestMean | kyle_ai.py:41-50 | No keep's mean over the unseen starters exceeds the reported expected value. |
| KyleAi.V3RoundsPicksPopped | kyle_ai.py:118-131 | Successful rounds popped n entries and found a crib estimate for each. The best total is not below the start or any popped total, and it is either the start or a popped entry's keep and total. |
| KyleAi.V3RoundsFirstBest | kyle_ai.py:127-131 | The strict `>` tie-break: when no popped total beats the start, the starting choice stands; otherwise the result is the first popped entry whose total beats the start and every entry popped before it. |
| KyleAi.V3RoundsFailOnlyEmpty | kyle_ai.py:120-121 | When no crib estimate fails, the rounds fail exactly when fewer than n entries were pushed, with the empty-heap error. |
| KyleAi.V3RoundsFirstCribFails | kyle_ai.py:121-126 | A failing crib estimate for the first popped entry is the rounds' error. |
| KyleAi.CribOfKeepFails | kyle_ai.py:124-126 | A keep's crib sum fails exactly when one or two cards are unseen, with a division by zero. |
| KyleAi.TopThreeChoice | kyle_ai.py:118-133 | Three rounds over any entries, normalised, give no keep or one of the first three popped keeps, and no entry left in the heap is below a popped one. The total is that keep's own; no popped total is larger; among equal totals the first popped wins, and with no total above -1000 there is no keep; the error cases are as above. |
| KyleAi.V3ChoiceFacts | kyle_ai.py:100-133 | V3 picks no keep or one of the three popped keeps, and no keep left in the heap has a higher hand total than a popped one. The pick is reported with its hand score plus crib sum per unseen card, and no popped keep totals more; among equal totals the first popped keep wins, and with no total above -1000 there is no keep. With three or more unseen cards it fails exactly when there are fewer than three keeps. With one or two unseen cards it divides by zero. |
| KyleAi.ThrowOfHeld | kyle_ai.py:58-67 | The two cards picked to throw are held by the hand. |
| KyleAi.KeepAfterThrow | kyle_ai.py:53-67 | For six distinct dealt cards and any 4-card keep of them, exactly two cards are thrown, and the hand is left holding exactly the four kept cards. |
| KyleAi.ThrowAway | kyle_ai.py:58-67 | `ask_for_crib_throw` after the choice computes the specified throw. On success the thrown cards are removed from the hand; on failure the hand is unchanged. |
| KyleAi.RankKeeps | kyle_ai.py:106-116 | The first V3 loop pushes `(-hand_score, keep)` for every keep, in order, into a fresh heap. |
| KyleAi.PlayRound | kyle_ai.py:121-131 | One pop, crib evaluation and comparison advances the remaining rounds by exactly one round. |
| KyleAi.BestOfTop | kyle_ai.py:118-131 | The three-pop loop computes the specified rounds over the heap's entries. |
| KyleAi.KyleBotV1.constructor | kyle_ai.py:23-25 | The bot holds the hand it is dealt, as `notify_new_hand` stores it. |
| KyleAi.KyleBotV1.GetBestHand | kyle_ai.py:17-51 | V1's search, with a crib score of 0, computes `V1Choice` of the hand's `all_cards`. |
| KyleAi.KyleBotV1.AskForCribThrow | kyle_ai.py:53-67 | Throws the cards outside V1's keep, or leaves the held cards unchanged on an error; the starter is never changed. |
| KyleAi.KyleBotV3.constructor | kyle_ai.py:23-25 | The bot holds the hand it is dealt, as the inherited `notify_new_hand` stores it. |
| KyleAi.KyleBotV3.GetBestHand | kyle_ai.py:100-133 | V3's two-stage search computes `V3Choice` of the hand's `all_cards`. |
| KyleAi.KyleBotV3.AskForCribThrow | kyle_ai.py:53-67 | Throws the cards outside V3's keep, or leaves the held cards unchanged on an error; the starter is never changed. |

## Left out

- `game.py` (round orchestration, timing and random deals) and `test_ai.py` (random bots and the `Bot` base class) are not part of this model.
- `KyleBotV2._score_from_crib` is left out because it estimates by `random.sample`.
- Cards.Deck.Draw: returns the first n cards of the deck, one of the samples `random.sample` may return. Its contract promises only n distinct cards, as the random choice allows.
- Display and logging are left out: `colored_print`, `plaintext_print`, `prompt`, `record`, `__str__`, `__repr__`, `__hash__`, the `logging` calls, and the `__main__` blocks.
- KyleAi.Ratio: floats are exact reals, so rounding of `float` division is not modelled.
- CardSets.Dedup: Python set iteration order is not modelled. A set keeps the order in which the cards first appear, and the unseen cards keep deck order. The enumeration and throw orders follow from that choice.
- Cards.FullDeck: the deck's order is taken as rank-major with suits in table order. Python's dictionary key order is not modelled.
- ScoreHeap.ScoreHeap.Pop: the heap's internal layout is not modelled. A pop scans for the least entry. `LeastIsUnique` shows that every layout pops the same entry.
- The `seen_cards` set and `notify_new_hand` are left out: the set is never read.
- The unreachable `cards` reference in the nobs branch is left out: the branch is never taken (`NobsNeverCounted`).
- The bots read the deck through the pure `Cards.FullDeck`, which is the list the memo returns.
