/**
  `sorted(...)` on a list of cards, as the scorer applies it before counting.
  Cards are ordered by `Cards.CardLess` (rank, then suit name); since two
  cards compare equal only when they are the same card, the sorted order of a
  hand is unique.
*/
module CardSort {
  import opened Cards

  /** A card's place in the card order: rank first, then suit position. */
  function Key(c: Card): nat
  {
    (c.rank - 1) * 4 + SuitPosition(c.suit)
  }

  /** `CardLess` is comparison of keys, and the key identifies the card. */
  lemma OrderByKey(a: Card, b: Card)
    ensures CardLess(a, b) <==> Key(a) < Key(b)
    ensures Key(a) == Key(b) ==> a == b
  {
    CompareBySuitPosition(a, b);
  }

  /** Non-decreasing in the card order. */
  predicate SortedCards(s: seq<Card>)
  {
    forall i, j :: 0 <= i < j < |s| ==> Key(s[i]) <= Key(s[j])
  }

  /** A card no greater than every card of a sorted list may go in front of it. */
  lemma SortedCons(x: Card, t: seq<Card>)
    requires SortedCards(t)
    requires forall k :: 0 <= k < |t| ==> Key(x) <= Key(t[k])
    ensures SortedCards([x] + t)
  {
    var r := [x] + t;
    forall i, j | 0 <= i < j < |r| ensures Key(r[i]) <= Key(r[j]) {
      assert r[j] == t[j - 1];
      if i > 0 {
        assert r[i] == t[i - 1];
      }
    }
  }

  /** Whatever is inserted into a list above `x`, with `c` above `x`, stays above `x`. */
  lemma StaysAbove(x: Card, c: Card, t: seq<Card>, rest: seq<Card>)
    requires Key(x) < Key(c)
    requires forall k :: 0 <= k < |t| ==> Key(x) <= Key(t[k])
    requires multiset(rest) == multiset(t) + multiset{c}
    ensures forall k :: 0 <= k < |rest| ==> Key(x) <= Key(rest[k])
  {
    forall k | 0 <= k < |rest| ensures Key(x) <= Key(rest[k]) {
      assert rest[k] in multiset(rest);
      if rest[k] != c {
        assert rest[k] in multiset(t);
        var m :| 0 <= m < |t| && t[m] == rest[k];
      }
    }
  }

  /** Places `c` in front of the first card of `s` that is not below it. */
  function Insert(c: Card, s: seq<Card>): seq<Card>
  {
    if s == [] then [c]
    else if CardLess(s[0], c) then [s[0]] + Insert(c, s[1..])
    else [c] + s
  }

  /** Inserting into a sorted list adds the card and keeps the list sorted. */
  lemma {:induction false} InsertSorted(c: Card, s: seq<Card>)
    requires SortedCards(s)
    ensures multiset(Insert(c, s)) == multiset(s) + multiset{c}
    ensures SortedCards(Insert(c, s))
  {
    if s != [] {
      OrderByKey(s[0], c);
      OrderByKey(c, s[0]);
      if CardLess(s[0], c) {
        var tail := s[1..];
        assert s == [s[0]] + tail;
        SortedTail(s);
        InsertSorted(c, tail);
        var rest := Insert(c, tail);
        assert forall k :: 0 <= k < |tail| ==> Key(s[0]) <= Key(tail[k]) by {
          forall k | 0 <= k < |tail| ensures Key(s[0]) <= Key(tail[k]) {
            assert tail[k] == s[k + 1];
          }
        }
        StaysAbove(s[0], c, tail, rest);
        SortedCons(s[0], rest);
      } else {
        SortedCons(c, s);
      }
    }
  }

  /** `sorted(s)`: insertion sort. */
  function SortCards(s: seq<Card>): seq<Card>
  {
    if s == [] then [] else Insert(s[0], SortCards(s[1..]))
  }

  /** The sort keeps every card (with its multiplicity) and yields a sorted list. */
  lemma {:induction false} SortCardsCorrect(s: seq<Card>)
    ensures multiset(SortCards(s)) == multiset(s)
    ensures SortedCards(SortCards(s))
  {
    if s != [] {
      SortCardsCorrect(s[1..]);
      InsertSorted(s[0], SortCards(s[1..]));
      assert s == [s[0]] + s[1..];
    }
  }

  /** The first card of a sorted list is no greater than any card in it. */
  lemma HeadIsLeast(a: seq<Card>, x: Card)
    requires SortedCards(a) && x in multiset(a)
    ensures Key(a[0]) <= Key(x)
  {
    var j :| 0 <= j < |a| && a[j] == x;
  }

  lemma SortedTail(a: seq<Card>)
    requires SortedCards(a) && a != []
    ensures SortedCards(a[1..])
  {
    forall i, j | 0 <= i < j < |a[1..]| ensures Key(a[1..][i]) <= Key(a[1..][j]) {
      assert a[1..][i] == a[i + 1] && a[1..][j] == a[j + 1];
    }
  }

  /** Sorting is unique: two sorted arrangements of the same cards are equal. */
  lemma {:induction false} SortedUnique(a: seq<Card>, b: seq<Card>)
    requires SortedCards(a) && SortedCards(b)
    requires multiset(a) == multiset(b)
    ensures a == b
  {
    if a != [] && b != [] {
      assert a[0] in multiset(a) && b[0] in multiset(b);
      HeadIsLeast(a, b[0]);
      HeadIsLeast(b, a[0]);
      OrderByKey(a[0], b[0]);
      var a', b' := a[1..], b[1..];
      assert a == [a[0]] + a' && b == [b[0]] + b';
      calc {
        multiset(a');
        multiset(a) - multiset{a[0]};
        multiset(b) - multiset{b[0]};
        multiset(b');
      }
      SortedTail(a);
      SortedTail(b);
      SortedUnique(a', b');
    } else {
      assert |a| == |multiset(a)| == |multiset(b)| == |b|;
    }
  }

  /** In a sorted hand ranks never decrease. */
  lemma SortedRanks(s: seq<Card>)
    requires SortedCards(s)
    ensures forall i, j :: 0 <= i < j < |s| ==> s[i].rank <= s[j].rank
  {
    forall i, j | 0 <= i < j < |s| ensures s[i].rank <= s[j].rank {
      assert Key(s[i]) <= Key(s[j]);
    }
  }
}
