/**
  The `Hand` class of cribbage.py: the cards a player holds and, once it is
  cut, the starter card.
*/
module Hands {
  import opened Results
  import opened Cards

  /** The `ValueError` of `list.remove` for a card the hand does not hold. */
  datatype HandError = CardNotInHand(card: Card)

  /** Position of the first occurrence of `x` in `s`. */
  function FirstIndex(s: seq<Card>, x: Card): (i: nat)
    requires x in s
    ensures i < |s| && s[i] == x && x !in s[..i]
  {
    if s[0] == x then 0
    else
      assert s == [s[0]] + s[1..];
      var j := FirstIndex(s[1..], x);
      assert s[..j + 1] == [s[0]] + s[1..][..j];
      j + 1
  }

  /** `list.remove(x)`: the first card equal to `x` is taken out. */
  function RemoveFirst(s: seq<Card>, x: Card): (r: seq<Card>)
    requires x in s
    ensures r == s[..FirstIndex(s, x)] + s[FirstIndex(s, x) + 1..]
    ensures multiset(r) == multiset(s) - multiset{x}
  {
    if s[0] == x then
      RemovedAt(s, 0);
      s[1..]
    else
      var rest := RemoveFirst(s[1..], x);
      ConsRemoved(s, x, rest);
      [s[0]] + rest
  }

  lemma RemovedAt(s: seq<Card>, i: nat)
    requires i < |s|
    ensures multiset(s[..i] + s[i + 1..]) == multiset(s) - multiset{s[i]}
  {
    assert s == s[..i] + [s[i]] + s[i + 1..];
  }

  lemma ConsRemoved(s: seq<Card>, x: Card, rest: seq<Card>)
    requires x in s && s[0] != x
    requires rest == s[1..][..FirstIndex(s[1..], x)] + s[1..][FirstIndex(s[1..], x) + 1..]
    ensures [s[0]] + rest == s[..FirstIndex(s, x)] + s[FirstIndex(s, x) + 1..]
    ensures multiset([s[0]] + rest) == multiset(s) - multiset{x}
  {
    var i := FirstIndex(s, x);
    SliceCons(s, i);
    RemovedAt(s, i);
  }

  lemma SliceCons(s: seq<Card>, i: nat)
    requires 0 < i < |s|
    ensures s[..i] + s[i + 1..] == [s[0]] + (s[1..][..i - 1] + s[1..][i..])
  {
  }

  /** The cards left after removing each card of `xs` in turn, skipping one no longer held. */
  function RemoveAll(s: seq<Card>, xs: seq<Card>): seq<Card>
    decreases |xs|
  {
    if xs == [] then s
    else
      var left := RemoveAll(s, xs[..|xs| - 1]);
      var x := xs[|xs| - 1];
      if x in left then RemoveFirst(left, x) else left
  }

  /** Every removal of `xs`, made in order, finds its card still held. */
  predicate AllHeld(s: seq<Card>, xs: seq<Card>)
    decreases |xs|
  {
    xs == [] || (AllHeld(s, xs[..|xs| - 1]) && xs[|xs| - 1] in RemoveAll(s, xs[..|xs| - 1]))
  }

  /** The removals all succeed exactly when `xs` asks for no card more often than `s` holds it. */
  lemma {:induction false} AllHeldIffContained(s: seq<Card>, xs: seq<Card>)
    ensures AllHeld(s, xs) <==> multiset(xs) <= multiset(s)
    ensures AllHeld(s, xs) ==> multiset(RemoveAll(s, xs)) == multiset(s) - multiset(xs)
    decreases |xs|
  {
    if xs != [] {
      var front := xs[..|xs| - 1];
      var x := xs[|xs| - 1];
      AllHeldIffContained(s, front);
      assert xs == front + [x];
      assert multiset(xs) == multiset(front) + multiset{x};
      if AllHeld(s, front) {
        TakeOneMore(RemoveAll(s, front), multiset(s), multiset(front), x);
      } else {
        StillTooMany(multiset(s), multiset(front), x);
      }
    }
  }

  /** With `left` holding what remains of `whole` once `taken` is gone, `x` is still held exactly when one more copy fits. */
  lemma TakeOneMore(left: seq<Card>, whole: multiset<Card>, taken: multiset<Card>, x: Card)
    requires taken <= whole && multiset(left) == whole - taken
    ensures x in left <==> taken + multiset{x} <= whole
    ensures x in left ==> multiset(RemoveFirst(left, x)) == whole - (taken + multiset{x})
  {
    assert x in left <==> multiset(left)[x] > 0;
    if !(x in left) {
      assert (taken + multiset{x})[x] > whole[x];
    }
  }

  /** Asking for one more card never fixes a list that already asks for too many. */
  lemma StillTooMany(whole: multiset<Card>, taken: multiset<Card>, x: Card)
    requires !(taken <= whole)
    ensures !(taken + multiset{x} <= whole)
  {
    var y :| taken[y] > whole[y];
    assert (taken + multiset{x})[y] >= taken[y];
  }

  /** Extending the removals by the card at position `i`. */
  lemma RemoveAllStep(s: seq<Card>, xs: seq<Card>, i: nat)
    requires i < |xs|
    ensures xs[..i + 1][..i] == xs[..i] && xs[..i + 1][i] == xs[i]
    ensures AllHeld(s, xs[..i + 1]) <==> AllHeld(s, xs[..i]) && xs[i] in RemoveAll(s, xs[..i])
    ensures xs[i] in RemoveAll(s, xs[..i]) ==>
      RemoveAll(s, xs[..i + 1]) == RemoveFirst(RemoveAll(s, xs[..i]), xs[i])
  {
    assert xs[..i + 1][..i] == xs[..i];
  }

  /** Once one removal fails, so does the whole list. */
  lemma {:induction false} AllHeldPrefix(s: seq<Card>, xs: seq<Card>, i: nat)
    requires i <= |xs|
    requires AllHeld(s, xs)
    ensures AllHeld(s, xs[..i])
    decreases |xs| - i
  {
    if i == |xs| {
      assert xs[..i] == xs;
    } else {
      var front := xs[..|xs| - 1];
      assert AllHeld(s, front) by {
        assert xs != [];
      }
      PrefixOfFront(xs, i);
      AllHeldPrefix(s, front, i);
    }
  }

  lemma PrefixOfFront(xs: seq<Card>, i: nat)
    requires i < |xs|
    ensures xs[..|xs| - 1][..i] == xs[..i]
  {
  }

  /** A removal that finds its card gone means the list asks for more than the hand holds. */
  lemma FailedRemoval(s: seq<Card>, xs: seq<Card>, i: nat)
    requires i < |xs|
    requires xs[i] !in RemoveAll(s, xs[..i])
    ensures !(multiset(xs) <= multiset(s))
  {
    RemoveAllStep(s, xs, i);
    if AllHeld(s, xs) {
      AllHeldPrefix(s, xs, i + 1);
    }
    AllHeldIffContained(s, xs);
  }

  class Hand {
    var cards: seq<Card>
    var starter: Option<Card>

    /** `Hand(cards, starter_card)`: the crib flags it accepts are not stored. */
    constructor(cards: seq<Card>, starter: Option<Card>)
      ensures this.cards == cards && this.starter == starter
    {
      this.cards := cards;
      this.starter := starter;
    }

    /** `all_cards`: the held cards, followed by the starter once there is one. */
    function AllCards(): (all: seq<Card>)
      reads this
      ensures |all| == |cards| + (if starter.Some? then 1 else 0)
      ensures all[..|cards|] == cards
      ensures starter.Some? ==> all[|cards|] == starter.value
    {
      if starter.Some? then cards + [starter.value] else cards
    }

    /** `add_starter_card`: sets (or replaces) the starter; the held cards stay. */
    method AddStarterCard(card: Card)
      modifies this
      ensures starter == Some(card) && cards == old(cards)
    {
      starter := Some(card);
    }

    /**
      `throw_cards`: removes each given card in turn and returns them. When a
      card is not (or no longer) held, the removals already made stay made and
      the error names that card.
    */
    method ThrowCards(toThrow: seq<Card>) returns (r: Result<seq<Card>, HandError>)
      modifies this
      ensures starter == old(starter)
      ensures r.Ok? <==> multiset(toThrow) <= multiset(old(cards))
      ensures r.Ok? ==> r.value == toThrow && cards == RemoveAll(old(cards), toThrow)
      ensures r.Err? ==> exists k ::
        && 0 <= k < |toThrow|
        && AllHeld(old(cards), toThrow[..k])
        && cards == RemoveAll(old(cards), toThrow[..k])
        && toThrow[k] !in cards
        && r.error == CardNotInHand(toThrow[k])
    {
      ghost var orig := cards;
      var i := 0;
      while i < |toThrow|
        invariant 0 <= i <= |toThrow|
        invariant starter == old(starter)
        invariant AllHeld(orig, toThrow[..i])
        invariant cards == RemoveAll(orig, toThrow[..i])
      {
        var card := toThrow[i];
        RemoveAllStep(orig, toThrow, i);
        if card !in cards {
          FailedRemoval(orig, toThrow, i);
          return Err(CardNotInHand(card));
        }
        cards := RemoveFirst(cards, card);
        i := i + 1;
      }
      assert toThrow[..i] == toThrow;
      AllHeldIffContained(orig, toThrow);
      return Ok(toThrow);
    }
  }
}
