/**
  The Python sets of cards the bots in kyle_ai.py build (`set(...)`, `-`).
  A set is modelled as a list without repeats; iteration follows the order
  of the list it was built from.
*/
module CardSets {
  import opened Cards
  import opened Combinatorics

  /** `set(xs)`: the cards of `xs`, each once, in order of first appearance. */
  function Dedup(xs: seq<Card>): seq<Card>
  {
    if xs == [] then []
    else
      var d := Dedup(xs[..|xs| - 1]);
      if xs[|xs| - 1] in d then d else d + [xs[|xs| - 1]]
  }

  /** `set(xs)` holds the same cards as `xs`, none twice. */
  lemma {:induction false} DedupFacts(xs: seq<Card>)
    ensures NoDuplicates(Dedup(xs))
    ensures forall c :: c in Dedup(xs) <==> c in xs
  {
    if xs != [] {
      var init := xs[..|xs| - 1];
      DedupFacts(init);
      assert xs == init + [xs[|xs| - 1]];
    }
  }

  /** `xs - ys`: the cards of `xs` that are not in `ys`, in the order of `xs`. */
  function Minus(xs: seq<Card>, ys: seq<Card>): seq<Card>
  {
    if xs == [] then []
    else if xs[0] in ys then Minus(xs[1..], ys)
    else [xs[0]] + Minus(xs[1..], ys)
  }

  /** The difference holds exactly the cards of `xs` outside `ys`, and keeps `xs` free of repeats. */
  lemma {:induction false} MinusFacts(xs: seq<Card>, ys: seq<Card>)
    ensures forall c :: c in Minus(xs, ys) <==> c in xs && c !in ys
    ensures NoDuplicates(xs) ==> NoDuplicates(Minus(xs, ys))
  {
    if xs != [] {
      MinusFacts(xs[1..], ys);
      assert xs == [xs[0]] + xs[1..];
    }
  }

  /** `card_set - hand_set`: the cards of the deck not in the hand, in deck order. */
  function Unseen(handSet: seq<Card>): seq<Card>
  {
    Minus(FullDeck(), handSet)
  }

  /** `other_cards - set([starter_card])`. */
  function Without(xs: seq<Card>, c: Card): seq<Card>
  {
    Minus(xs, [c])
  }

  /** The cards of a list, as a set. */
  function Elements(s: seq<Card>): set<Card>
  {
    set c | c in s
  }

  /** A list without repeats has as many cards as its set. */
  lemma {:induction false} DistinctSize(s: seq<Card>)
    requires NoDuplicates(s)
    ensures |Elements(s)| == |s|
  {
    if s != [] {
      DistinctSize(s[1..]);
      assert Elements(s) == {s[0]} + Elements(s[1..]);
    }
  }

  /** Taking away from `xs` the cards of `ys`, all held in `xs`, leaves `|xs| - |ys|` cards when neither repeats a card. */
  lemma MinusSize(xs: seq<Card>, ys: seq<Card>)
    requires NoDuplicates(xs) && NoDuplicates(ys)
    requires forall c :: c in ys ==> c in xs
    ensures |Minus(xs, ys)| == |xs| - |ys|
  {
    MinusFacts(xs, ys);
    DistinctSize(xs);
    DistinctSize(ys);
    DistinctSize(Minus(xs, ys));
    assert Elements(Minus(xs, ys)) == Elements(xs) - Elements(ys);
    assert Elements(ys) <= Elements(xs);
  }

  /** Removing a card the list holds, from a list without repeats, leaves one card fewer. */
  lemma WithoutSize(xs: seq<Card>, c: Card)
    requires NoDuplicates(xs) && c in xs
    ensures |Without(xs, c)| == |xs| - 1
    ensures NoDuplicates(Without(xs, c))
  {
    MinusSize(xs, [c]);
    MinusFacts(xs, [c]);
  }

  /** The unseen cards are the deck's cards outside the hand, none twice. */
  lemma UnseenFacts(handSet: seq<Card>)
    ensures NoDuplicates(Unseen(handSet))
    ensures forall c :: c in Unseen(handSet) <==> c !in handSet
  {
    MinusFacts(FullDeck(), handSet);
  }
}
