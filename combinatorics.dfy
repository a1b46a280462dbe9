/**
  `itertools.combinations` and `ranged_powerset` (cribbage.py).

  `Combinations(s, k)` follows itertools: the combinations that take the
  first item come first, each combination keeps the input's order, and the
  whole list is in lexicographic order of the positions taken.
*/
module Combinatorics {

  function Binomial(n: nat, k: nat): nat
  {
    if k == 0 then 1
    else if n == 0 then 0
    else Binomial(n - 1, k - 1) + Binomial(n - 1, k)
  }

  /** `idx` lists distinct positions of `lo..n-1` in increasing order. */
  predicate IncreasingIndices(idx: seq<nat>, lo: nat, n: nat)
  {
    && (forall i :: 0 <= i < |idx| ==> lo <= idx[i] < n)
    && (forall i, j :: 0 <= i < j < |idx| ==> idx[i] < idx[j])
  }

  /** The items of `s` at the positions `idx`, in that order. */
  function Pick<T>(s: seq<T>, idx: seq<nat>): seq<T>
    requires forall i :: 0 <= i < |idx| ==> idx[i] < |s|
  {
    seq(|idx|, i requires 0 <= i < |idx| => s[idx[i]])
  }

  predicate NoDuplicates<T(==)>(s: seq<T>)
  {
    forall i, j :: 0 <= i < j < |s| ==> s[i] != s[j]
  }

  function PrependAll<T>(x: T, css: seq<seq<T>>): seq<seq<T>>
  {
    seq(|css|, i requires 0 <= i < |css| => [x] + css[i])
  }

  /** `itertools.combinations(s, k)`. */
  function Combinations<T>(s: seq<T>, k: nat): seq<seq<T>>
  {
    if k == 0 then [[]]
    else if s == [] then []
    else PrependAll(s[0], Combinations(s[1..], k - 1)) + Combinations(s[1..], k)
  }

  /** There are `Binomial(|s|, k)` combinations, each of `k` items. */
  lemma {:induction false} CombinationsSizes<T>(s: seq<T>, k: nat)
    ensures |Combinations(s, k)| == Binomial(|s|, k)
    ensures forall i :: 0 <= i < |Combinations(s, k)| ==> |Combinations(s, k)[i]| == k
  {
    if k > 0 && s != [] {
      CombinationsSizes(s[1..], k - 1);
      CombinationsSizes(s[1..], k);
      var front := PrependAll(s[0], Combinations(s[1..], k - 1));
      var back := Combinations(s[1..], k);
      forall i | 0 <= i < |front + back| ensures |(front + back)[i]| == k {
        if i < |front| {
          assert (front + back)[i] == [s[0]] + Combinations(s[1..], k - 1)[i];
        } else {
          assert (front + back)[i] == back[i - |front|];
        }
      }
    }
  }

  /** Positions one further on. */
  function Shift(idx: seq<nat>): seq<nat>
  {
    seq(|idx|, i requires 0 <= i < |idx| => idx[i] + 1)
  }

  /** Taking position 0 first, then the rest one position further on. */
  lemma PickFirst<T>(s: seq<T>, idx: seq<nat>)
    requires s != [] && IncreasingIndices(idx, 0, |s| - 1)
    ensures IncreasingIndices([0] + Shift(idx), 0, |s|)
    ensures Pick(s, [0] + Shift(idx)) == [s[0]] + Pick(s[1..], idx)
  {
  }

  /** Skipping position 0: every position one further on. */
  lemma PickLater<T>(s: seq<T>, idx: seq<nat>)
    requires s != [] && IncreasingIndices(idx, 0, |s| - 1)
    ensures IncreasingIndices(Shift(idx), 0, |s|)
    ensures Pick(s, Shift(idx)) == Pick(s[1..], idx)
  {
  }

  /** Splits an increasing position list by whether it takes position 0. */
  lemma PickSplit<T>(s: seq<T>, idx: seq<nat>) returns (down: seq<nat>)
    requires IncreasingIndices(idx, 0, |s|) && |idx| > 0
    ensures s != [] && IncreasingIndices(down, 0, |s| - 1)
    ensures idx[0] == 0 ==> |down| == |idx| - 1 && Pick(s, idx) == [s[0]] + Pick(s[1..], down)
    ensures idx[0] != 0 ==> |down| == |idx| && Pick(s, idx) == Pick(s[1..], down)
  {
    assert idx[0] < |s|;
    if idx[0] == 0 {
      down := seq(|idx| - 1, i requires 0 <= i < |idx| - 1 => idx[i + 1] - 1);
      forall i | 0 <= i < |down| ensures 0 <= down[i] < |s| - 1 {
        assert idx[0] < idx[i + 1];
      }
      assert idx == [0] + Shift(down);
      PickFirst(s, down);
    } else {
      down := seq(|idx|, i requires 0 <= i < |idx| => idx[i] - 1);
      forall i | 0 <= i < |down| ensures 0 <= down[i] < |s| - 1 {
        if i > 0 { assert idx[0] < idx[i]; }
      }
      assert idx == Shift(down);
      PickLater(s, down);
    }
  }

  /** Every choice of `k` items of `s`, kept in order, is among the combinations. */
  lemma {:induction false} CombinationsComplete<T>(s: seq<T>, idx: seq<nat>)
    requires IncreasingIndices(idx, 0, |s|)
    ensures Pick(s, idx) in Combinations(s, |idx|)
    decreases |s|
  {
    var k := |idx|;
    if k == 0 {
      assert Pick(s, idx) == [];
    } else {
      var down := PickSplit(s, idx);
      assert Combinations(s, k) == PrependAll(s[0], Combinations(s[1..], k - 1)) + Combinations(s[1..], k);
      CombinationsComplete(s[1..], down);
      if idx[0] == 0 {
        PrependedMember(s[0], Combinations(s[1..], k - 1), Combinations(s[1..], k), Pick(s[1..], down));
      }
    }
  }

  /** A list of `front` with `x` put before it is among `PrependAll(x, front)` followed by anything. */
  lemma PrependedMember<T>(x: T, front: seq<seq<T>>, back: seq<seq<T>>, c: seq<T>)
    requires c in front
    ensures [x] + c in PrependAll(x, front) + back
  {
    var j :| 0 <= j < |front| && front[j] == c;
    assert (PrependAll(x, front) + back)[j] == [x] + c;
  }

  /** Every combination is `k` items of `s` taken at increasing positions. */
  lemma {:induction false} CombinationsSound<T>(s: seq<T>, k: nat, i: nat)
    requires i < |Combinations(s, k)|
    ensures exists idx ::
      |idx| == k && IncreasingIndices(idx, 0, |s|) && Combinations(s, k)[i] == Pick(s, idx)
    decreases |s|
  {
    if k == 0 {
      assert Combinations(s, k)[i] == Pick(s, []);
    } else {
      var front := Combinations(s[1..], k - 1);
      var back := Combinations(s[1..], k);
      var pre := PrependAll(s[0], front);
      assert Combinations(s, k) == pre + back;
      if i < |front| {
        CombinationsSound(s[1..], k - 1, i);
        var idx' :| |idx'| == k - 1 && IncreasingIndices(idx', 0, |s| - 1) && front[i] == Pick(s[1..], idx');
        PickFirst(s, idx');
        assert Combinations(s, k)[i] == pre[i] == [s[0]] + front[i];
        assert |[0] + Shift(idx')| == k;
      } else {
        CombinationsSound(s[1..], k, i - |front|);
        var idx' :| |idx'| == k && IncreasingIndices(idx', 0, |s| - 1) && back[i - |front|] == Pick(s[1..], idx');
        PickLater(s, idx');
        assert Combinations(s, k)[i] == back[i - |front|];
        assert |Shift(idx')| == k;
      }
    }
  }

  /** Over a list without repeats, no combination comes out twice. */
  lemma {:induction false} CombinationsDistinct<T>(s: seq<T>, k: nat)
    requires NoDuplicates(s)
    ensures NoDuplicates(Combinations(s, k))
    decreases |s|
  {
    if k > 0 && s != [] {
      var tail := s[1..];
      assert NoDuplicates(tail) by {
        forall i, j | 0 <= i < j < |tail| ensures tail[i] != tail[j] {
          assert tail[i] == s[i + 1] && tail[j] == s[j + 1];
        }
      }
      CombinationsDistinct(tail, k - 1);
      CombinationsDistinct(tail, k);
      PrependAllDistinct(s[0], Combinations(tail, k - 1));
      forall c | c in Combinations(tail, k) ensures c == [] || c[0] != s[0] {
        var jb :| 0 <= jb < |Combinations(tail, k)| && Combinations(tail, k)[jb] == c;
        HeadNotRepeated(s, k, jb);
      }
      DistinctConcat(s[0], Combinations(tail, k - 1), Combinations(tail, k));
    }
  }

  lemma PrependAllDistinct<T>(x: T, q: seq<seq<T>>)
    requires NoDuplicates(q)
    ensures NoDuplicates(PrependAll(x, q))
  {
    var p := PrependAll(x, q);
    forall i, j | 0 <= i < j < |p| ensures p[i] != p[j] {
      assert p[i][1..] == q[i] && p[j][1..] == q[j];
    }
  }

  /** A combination of the tail of a repeat-free list never starts with its head. */
  lemma HeadNotRepeated<T>(s: seq<T>, k: nat, jb: nat)
    requires NoDuplicates(s) && s != [] && k > 0 && jb < |Combinations(s[1..], k)|
    ensures |Combinations(s[1..], k)[jb]| == k && Combinations(s[1..], k)[jb][0] != s[0]
  {
    var tail := s[1..];
    CombinationsSizes(tail, k);
    CombinationsSound(tail, k, jb);
    var idx :| |idx| == k && IncreasingIndices(idx, 0, |tail|) && Combinations(tail, k)[jb] == Pick(tail, idx);
    assert Combinations(tail, k)[jb][0] == tail[idx[0]] == s[idx[0] + 1];
  }

  /** Lists all starting with `x`, then repeat-free lists none of which starts with `x`, hold no repeat. */
  lemma DistinctConcat<T>(x: T, front: seq<seq<T>>, back: seq<seq<T>>)
    requires NoDuplicates(PrependAll(x, front)) && NoDuplicates(back)
    requires forall c :: c in back ==> c == [] || c[0] != x
    ensures NoDuplicates(PrependAll(x, front) + back)
  {
    var pre := PrependAll(x, front);
    var r := pre + back;
    forall i, j | 0 <= i < j < |r| ensures r[i] != r[j] {
      if j < |pre| {
        assert r[i] == pre[i] && r[j] == pre[j];
      } else if i < |pre| {
        assert r[i][0] == x;
        assert r[j] == back[j - |pre|] && r[j] in back;
      } else {
        assert r[i] == back[i - |pre|] && r[j] == back[j - |pre|];
      }
    }
  }

  /** `ranged_powerset(s, [lo, hi])`: the combinations of every size lo..hi, smaller sizes first. */
  function RangedPowerset<T>(s: seq<T>, lo: nat, hi: nat): seq<seq<T>>
    decreases if lo <= hi then hi - lo + 1 else 0
  {
    if lo > hi then [] else Combinations(s, lo) + RangedPowerset(s, lo + 1, hi)
  }

  /** Sizes stay within `lo..hi` and never decrease along the ranged powerset. */
  lemma {:induction false} RangedPowersetGraded<T>(s: seq<T>, lo: nat, hi: nat)
    ensures forall i :: 0 <= i < |RangedPowerset(s, lo, hi)| ==>
      lo <= |RangedPowerset(s, lo, hi)[i]| <= hi
    ensures forall i, j :: 0 <= i < j < |RangedPowerset(s, lo, hi)| ==>
      |RangedPowerset(s, lo, hi)[i]| <= |RangedPowerset(s, lo, hi)[j]|
    decreases if lo <= hi then hi - lo + 1 else 0
  {
    if lo <= hi {
      CombinationsSizes(s, lo);
      RangedPowersetGraded(s, lo + 1, hi);
      GradedConcat(Combinations(s, lo), RangedPowerset(s, lo + 1, hi), lo, hi);
    }
  }

  /** Lists of size `lo` followed by lists sized in order from `lo + 1` to `hi` are sized in order from `lo` to `hi`. */
  lemma GradedConcat<T>(first: seq<seq<T>>, rest: seq<seq<T>>, lo: nat, hi: nat)
    requires forall i :: 0 <= i < |first| ==> |first[i]| == lo
    requires forall i :: 0 <= i < |rest| ==> lo + 1 <= |rest[i]| <= hi
    requires forall i, j :: 0 <= i < j < |rest| ==> |rest[i]| <= |rest[j]|
    requires lo <= hi
    ensures forall i :: 0 <= i < |first + rest| ==> lo <= |(first + rest)[i]| <= hi
    ensures forall i, j :: 0 <= i < j < |first + rest| ==> |(first + rest)[i]| <= |(first + rest)[j]|
  {
    var r := first + rest;
    forall i | 0 <= i < |r| ensures lo <= |r[i]| <= hi {
      if i >= |first| {
        assert r[i] == rest[i - |first|];
      }
    }
    forall i, j | 0 <= i < j < |r| ensures |r[i]| <= |r[j]| {
      if i >= |first| {
        assert r[i] == rest[i - |first|] && r[j] == rest[j - |first|];
      } else if j >= |first| {
        assert r[j] == rest[j - |first|];
      }
    }
  }

  /** The members of `q` that have exactly `k` items, in order. */
  function OfSize<T>(q: seq<seq<T>>, k: nat): seq<seq<T>>
  {
    if q == [] then []
    else (if |q[0]| == k then [q[0]] else []) + OfSize(q[1..], k)
  }

  lemma {:induction false} OfSizeConcat<T>(a: seq<seq<T>>, b: seq<seq<T>>, k: nat)
    ensures OfSize(a + b, k) == OfSize(a, k) + OfSize(b, k)
  {
    if a != [] {
      assert (a + b)[1..] == a[1..] + b;
      OfSizeConcat(a[1..], b, k);
    } else {
      assert a + b == b;
    }
  }

  lemma {:induction false} OfSizeUniform<T>(q: seq<seq<T>>, j: nat, k: nat)
    requires forall i :: 0 <= i < |q| ==> |q[i]| == j
    ensures OfSize(q, k) == if j == k then q else []
  {
    if q != [] {
      OfSizeUniform(q[1..], j, k);
      assert q == [q[0]] + q[1..];
    }
  }

  /**
    The ranged powerset yields, for every size `k` from `lo` to `hi`, exactly
    `Combinations(s, k)` in itertools order, and nothing of any other size.
  */
  lemma {:induction false} RangedPowersetBySize<T>(s: seq<T>, lo: nat, hi: nat, k: nat)
    ensures OfSize(RangedPowerset(s, lo, hi), k) == if lo <= k <= hi then Combinations(s, k) else []
    decreases if lo <= hi then hi - lo + 1 else 0
  {
    if lo <= hi {
      var first := Combinations(s, lo);
      var rest := RangedPowerset(s, lo + 1, hi);
      assert RangedPowerset(s, lo, hi) == first + rest;
      CombinationsSizes(s, lo);
      OfSizeConcat(first, rest, k);
      OfSizeUniform(first, lo, k);
      RangedPowersetBySize(s, lo + 1, hi, k);
    }
  }
}
