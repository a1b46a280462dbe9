/**
  The `heapq` priority list of `KyleBotV3._get_best_hand`: entries
  `(-hand_score, keep)` compared as Python tuples, so the highest hand score
  comes out first and ties go to the keep that is smaller card by card.

  Only what `heappush`/`heappop` promise is modelled: a push adds the entry,
  a pop removes and returns a least entry. The entries are kept as a list
  and a pop scans it; `LeastIsUnique` shows that the order is total, so any
  heap layout pops the same entry.
*/
module ScoreHeap {
  import opened Results
  import opened Cards

  /** A tuple `(-1 * hand_score, possible_hand)`. */
  datatype Entry = Entry(neg: int, keep: seq<Card>)

  /** Python's `<` on two tuples of cards: the first position where they differ decides, a proper prefix comes first. */
  predicate SeqLess(a: seq<Card>, b: seq<Card>)
  {
    if b == [] then false
    else if a == [] then true
    else if a[0] != b[0] then CardLess(a[0], b[0])
    else SeqLess(a[1..], b[1..])
  }

  /** Python's `<` on two entries: by the negated score, then by the keep. */
  predicate EntryLess(a: Entry, b: Entry)
  {
    a.neg < b.neg || (a.neg == b.neg && SeqLess(a.keep, b.keep))
  }

  lemma {:induction false} SeqLessIrreflexive(a: seq<Card>)
    ensures !SeqLess(a, a)
  {
    if a != [] {
      SeqLessIrreflexive(a[1..]);
    }
  }

  lemma {:induction false} SeqLessTransitive(a: seq<Card>, b: seq<Card>, c: seq<Card>)
    requires SeqLess(a, b) && SeqLess(b, c)
    ensures SeqLess(a, c)
  {
    if a != [] {
      CardLessStrictTotal(a[0], b[0], c[0]);
      if a[0] == b[0] && b[0] == c[0] {
        SeqLessTransitive(a[1..], b[1..], c[1..]);
      }
    }
  }

  lemma {:induction false} SeqLessConnected(a: seq<Card>, b: seq<Card>)
    requires a != b
    ensures SeqLess(a, b) || SeqLess(b, a)
  {
    if a != [] && b != [] {
      CardLessStrictTotal(a[0], b[0], b[0]);
      if a[0] == b[0] {
        assert a == [a[0]] + a[1..] && b == [b[0]] + b[1..];
        SeqLessConnected(a[1..], b[1..]);
      }
    }
  }

  /** The entry order is a strict total order. */
  lemma EntryLessStrictTotal(a: Entry, b: Entry, c: Entry)
    ensures !EntryLess(a, a)
    ensures EntryLess(a, b) && EntryLess(b, c) ==> EntryLess(a, c)
    ensures a != b ==> EntryLess(a, b) || EntryLess(b, a)
  {
    SeqLessIrreflexive(a.keep);
    if EntryLess(a, b) && EntryLess(b, c) && a.neg == b.neg && b.neg == c.neg {
      SeqLessTransitive(a.keep, b.keep, c.keep);
    }
    if a != b && a.neg == b.neg {
      SeqLessConnected(a.keep, b.keep);
    }
  }

  /** Position of the first least entry, found by scanning from the front. */
  function MinIndex(es: seq<Entry>): (m: nat)
    requires es != []
    ensures m < |es|
  {
    if |es| == 1 then 0
    else
      var m := MinIndex(es[..|es| - 1]);
      if EntryLess(es[|es| - 1], es[m]) then |es| - 1 else m
  }

  /** No entry is below the one at `MinIndex`. */
  lemma {:induction false} MinIndexIsLeast(es: seq<Entry>)
    requires es != []
    ensures forall k :: 0 <= k < |es| ==> !EntryLess(es[k], es[MinIndex(es)])
  {
    if |es| > 1 {
      var init := es[..|es| - 1];
      MinIndexIsLeast(init);
      var m := MinIndex(init);
      forall k | 0 <= k < |es| ensures !EntryLess(es[k], es[MinIndex(es)]) {
        EntryLessStrictTotal(es[k], es[|es| - 1], es[m]);
        EntryLessStrictTotal(es[k], es[m], es[|es| - 1]);
        if k < |es| - 1 {
          assert es[k] == init[k];
        }
      }
    } else {
      EntryLessStrictTotal(es[0], es[0], es[0]);
    }
  }

  /** A least entry is unique: any entry that nothing is below equals the one `MinIndex` finds. */
  lemma LeastIsUnique(es: seq<Entry>, k: nat)
    requires k < |es|
    requires forall j :: 0 <= j < |es| ==> !EntryLess(es[j], es[k])
    ensures es[k] == es[MinIndex(es)]
  {
    MinIndexIsLeast(es);
    EntryLessStrictTotal(es[k], es[MinIndex(es)], es[k]);
  }

  function RemoveAt(es: seq<Entry>, m: nat): seq<Entry>
    requires m < |es|
  {
    es[..m] + es[m + 1..]
  }

  /** The entries `n` successive pops return from a list of at least `n` entries. */
  function Pops(es: seq<Entry>, n: nat): seq<Entry>
    requires n <= |es|
  {
    if n == 0 then []
    else
      var m := MinIndex(es);
      [es[m]] + Pops(RemoveAt(es, m), n - 1)
  }

  /** `n` successive pops; `None` when the list runs out first (`IndexError`). */
  function PopOrder(es: seq<Entry>, n: nat): Option<seq<Entry>>
  {
    if n <= |es| then Some(Pops(es, n)) else None
  }

  lemma {:induction false} PopsLength(es: seq<Entry>, n: nat)
    requires n <= |es|
    ensures |Pops(es, n)| == n
  {
    if n > 0 {
      PopsLength(RemoveAt(es, MinIndex(es)), n - 1);
    }
  }

  lemma RemoveAtMultiset(es: seq<Entry>, m: nat)
    requires m < |es|
    ensures multiset(es) == multiset(RemoveAt(es, m)) + multiset{es[m]}
  {
    assert es == es[..m] + [es[m]] + es[m + 1..];
  }

  /** Every entry of `a` is in `b`, at least as often. */
  predicate SubBag(a: seq<Entry>, b: seq<Entry>)
  {
    multiset(a) <= multiset(b)
  }

  /** Every popped entry is one that was pushed, and none is popped twice. */
  lemma {:induction false} PopsFromPushed(es: seq<Entry>, n: nat)
    requires n <= |es|
    ensures SubBag(Pops(es, n), es)
  {
    if n > 0 {
      var m := MinIndex(es);
      var rest := RemoveAt(es, m);
      PopsFromPushed(rest, n - 1);
      SubBagCons(es, m, Pops(rest, n - 1));
    }
  }

  /** Putting the removed entry back in front keeps a sub-bag of what was left a sub-bag of the whole. */
  lemma SubBagCons(es: seq<Entry>, m: nat, a: seq<Entry>)
    requires m < |es| && SubBag(a, RemoveAt(es, m))
    ensures SubBag([es[m]] + a, es)
  {
    RemoveAtMultiset(es, m);
    assert multiset([es[m]] + a) == multiset(a) + multiset{es[m]};
  }

  /** Whatever is among the entries is not below the one `MinIndex` finds. */
  lemma NothingBelowLeast(es: seq<Entry>, x: Entry)
    requires es != [] && x in multiset(es)
    ensures !EntryLess(x, es[MinIndex(es)])
  {
    MinIndexIsLeast(es);
    var k :| 0 <= k < |es| && es[k] == x;
  }

  /** Entries drawn from what is left after the least one is removed are not below it. */
  lemma RestNotBelowLeast(es: seq<Entry>, tail: seq<Entry>)
    requires es != []
    requires SubBag(tail, RemoveAt(es, MinIndex(es)))
    ensures NoneBelow(tail, es[MinIndex(es)])
  {
    RemoveAtMultiset(es, MinIndex(es));
    forall j | 0 <= j < |tail| ensures !EntryLess(tail[j], es[MinIndex(es)]) {
      assert tail[j] in multiset(tail);
      NothingBelowLeast(es, tail[j]);
    }
  }

  /** No entry of `p` is below `x`. */
  predicate NoneBelow(p: seq<Entry>, x: Entry)
  {
    forall j :: 0 <= j < |p| ==> !EntryLess(p[j], x)
  }

  /** Best first: no entry is below one in front of it. */
  predicate BestFirst(p: seq<Entry>)
  {
    forall i, j :: 0 <= i < j < |p| ==> !EntryLess(p[j], p[i])
  }

  lemma BestFirstCons(x: Entry, tail: seq<Entry>)
    requires BestFirst(tail)
    requires NoneBelow(tail, x)
    ensures BestFirst([x] + tail)
  {
    var p := [x] + tail;
    forall i, j | 0 <= i < j < |p| ensures !EntryLess(p[j], p[i]) {
      assert p[j] == tail[j - 1];
      if i > 0 {
        assert p[i] == tail[i - 1];
      }
    }
  }

  /** Pops come out best first. */
  lemma {:induction false} PopsBestFirst(es: seq<Entry>, n: nat)
    requires n <= |es|
    ensures BestFirst(Pops(es, n))
  {
    if n > 0 {
      var m := MinIndex(es);
      var rest := RemoveAt(es, m);
      PopsBestFirst(rest, n - 1);
      PopsFromPushed(rest, n - 1);
      var tail := Pops(rest, n - 1);
      RestNotBelowLeast(es, tail);
      BestFirstCons(es[m], tail);
      assert Pops(es, n) == [es[m]] + tail;
    }
  }

  /** The entries still in the list after `n` pops. */
  function Remaining(es: seq<Entry>, n: nat): seq<Entry>
    requires n <= |es|
  {
    if n == 0 then es else Remaining(RemoveAt(es, MinIndex(es)), n - 1)
  }

  /** `left` and `taken` together are the entries of `whole`. */
  predicate Splits(left: seq<Entry>, taken: seq<Entry>, whole: seq<Entry>)
  {
    multiset(left) + multiset(taken) == multiset(whole)
  }

  /** The pops and what is left are, together, the pushed entries. */
  lemma {:induction false} RemainingSplit(es: seq<Entry>, n: nat)
    requires n <= |es|
    ensures Splits(Remaining(es, n), Pops(es, n), es)
  {
    if n > 0 {
      var m := MinIndex(es);
      RemainingSplit(RemoveAt(es, m), n - 1);
      SplitCons(es, m, Remaining(RemoveAt(es, m), n - 1), Pops(RemoveAt(es, m), n - 1));
    }
  }

  /** Popping the entry at `m` first and then `tail` leaves `left` when `tail` alone leaves `left` of the list without it. */
  lemma SplitCons(es: seq<Entry>, m: nat, left: seq<Entry>, tail: seq<Entry>)
    requires m < |es| && Splits(left, tail, RemoveAt(es, m))
    ensures Splits(left, [es[m]] + tail, es)
  {
    RemoveAtMultiset(es, m);
    assert multiset([es[m]] + tail) == multiset{es[m]} + multiset(tail);
  }

  /** An entry of one part of a split is among the whole. */
  lemma InPart(e: Entry, left: seq<Entry>, tail: seq<Entry>, whole: seq<Entry>)
    requires Splits(left, tail, whole) && e in multiset(left)
    ensures e in multiset(whole)
  {
  }

  /** No entry left after `n` pops is below a popped one. */
  lemma {:induction false} RemainingNotBelow(es: seq<Entry>, n: nat, e: Entry)
    requires n <= |es| && e in multiset(Remaining(es, n))
    ensures NotBelowAny(e, Pops(es, n))
  {
    if n > 0 {
      var m := MinIndex(es);
      var rest := RemoveAt(es, m);
      RemainingSplit(es, n);
      InPart(e, Remaining(es, n), Pops(es, n), es);
      NothingBelowLeast(es, e);
      RemainingNotBelow(rest, n - 1, e);
      NotBelowCons(e, es[m], Pops(rest, n - 1));
    }
  }

  /** An entry still in the list after `n` pops is not below any popped entry: the pops are the `n` least entries. */
  lemma PopsAreTop(es: seq<Entry>, n: nat, e: Entry)
    requires n <= |es| && e in multiset(es) - multiset(Pops(es, n))
    ensures NotBelowAny(e, Pops(es, n))
  {
    RemainingSplit(es, n);
    RemainingNotBelow(es, n, e);
  }

  /** `e` is not below any entry of `p`. */
  predicate NotBelowAny(e: Entry, p: seq<Entry>)
  {
    forall j :: 0 <= j < |p| ==> !EntryLess(e, p[j])
  }

  lemma NotBelowCons(e: Entry, x: Entry, p: seq<Entry>)
    requires !EntryLess(e, x) && NotBelowAny(e, p)
    ensures NotBelowAny(e, [x] + p)
  {
    forall j | 0 <= j < |[x] + p| ensures !EntryLess(e, ([x] + p)[j]) {
      if j > 0 {
        assert ([x] + p)[j] == p[j - 1];
      }
    }
  }

  /**
    `n` pops succeed exactly when `n` entries were pushed; they then return
    `n` distinct pushed entries, best first, and no entry left behind is
    below a popped one.
  */
  lemma PopOrderFacts(es: seq<Entry>, n: nat)
    ensures PopOrder(es, n).Some? <==> n <= |es|
    ensures PopOrder(es, n).Some? ==>
      && |PopOrder(es, n).value| == n
      && SubBag(PopOrder(es, n).value, es)
      && BestFirst(PopOrder(es, n).value)
      && (forall e, j :: e in multiset(es) - multiset(PopOrder(es, n).value) && 0 <= j < n ==>
            !EntryLess(e, PopOrder(es, n).value[j]))
  {
    if n <= |es| {
      PopsLength(es, n);
      PopsFromPushed(es, n);
      PopsBestFirst(es, n);
      forall e | e in multiset(es) - multiset(Pops(es, n))
        ensures NotBelowAny(e, Pops(es, n))
      {
        PopsAreTop(es, n, e);
      }
    }
  }

  /**
    The heap list. `Push` is `heapq.heappush`; `Pop` is `heapq.heappop`,
    with an empty list reported as `None` where Python raises `IndexError`.
  */
  class ScoreHeap {
    var entries: seq<Entry>

    constructor()
      ensures entries == []
    {
      entries := [];
    }

    method Push(e: Entry)
      modifies this
      ensures entries == old(entries) + [e]
    {
      entries := entries + [e];
    }

    method Pop() returns (r: Option<Entry>)
      modifies this
      ensures old(entries) == [] ==> r.None? && entries == []
      ensures old(entries) != [] ==>
        r == Some(old(entries)[MinIndex(old(entries))]) && entries == RemoveAt(old(entries), MinIndex(old(entries)))
    {
      if entries == [] {
        return None;
      }
      var m := 0;
      var i := 1;
      while i < |entries|
        invariant 1 <= i <= |entries|
        invariant m == MinIndex(entries[..i])
      {
        assert entries[..i + 1][..i] == entries[..i];
        if EntryLess(entries[i], entries[m]) {
          m := i;
        }
        i := i + 1;
      }
      assert entries[..i] == entries;
      r := Some(entries[m]);
      entries := RemoveAt(entries, m);
    }
  }
}
