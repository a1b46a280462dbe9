/**
  Playing cards and the 52-card deck (the `Card` and `Deck` classes of cribbage.py).

  A card is a validated (rank, suit) value; cards compare equal when rank and
  suit match and are ordered by rank, then by the suit's *name* as a string
  ("clubs" < "diamonds" < "hearts" < "spades").
*/
module Cards {
  import opened Results

  const ACE := 1
  const JACK := 11
  const QUEEN := 12
  const KING := 13

  type Rank = r: int | 1 <= r <= 13 witness 1

  datatype Suit = Spades | Hearts | Diamonds | Clubs

  datatype Card = Card(rank: Rank, suit: Suit)

  datatype CardError = NoSuchCard

  datatype DeckError = DrawCountOutOfRange

  /** The keys of the suit table: each suit is known by its lower-case name. */
  function SuitName(s: Suit): string
  {
    match s
    case Spades => "spades"
    case Hearts => "hearts"
    case Diamonds => "diamonds"
    case Clubs => "clubs"
  }

  /** Looks a suit name up in the suit table. */
  function ParseSuit(name: string): (r: Option<Suit>)
    ensures r.Some? ==> SuitName(r.value) == name
    ensures r.None? ==> forall s: Suit :: SuitName(s) != name
  {
    if name == "spades" then Some(Spades)
    else if name == "hearts" then Some(Hearts)
    else if name == "diamonds" then Some(Diamonds)
    else if name == "clubs" then Some(Clubs)
    else None
  }

  /** The rank table's keys: Ace (1) through King (13). */
  const RANKS: set<int> := set r | ACE <= r <= KING

  /** Point value of each rank for fifteens: face cards count 10. */
  const VALUES: map<int, int> := map[
    KING := 10, QUEEN := 10, JACK := 10, 10 := 10, 9 := 9, 8 := 8, 7 := 7,
    6 := 6, 5 := 5, 4 := 4, 3 := 3, 2 := 2, ACE := 1]

  /** The card's point value for fifteens: its rank, with face cards counting 10. */
  function Value(c: Card): (v: int)
    ensures 1 <= v <= 10
  {
    if c.rank < 10 then c.rank else 10
  }

  /** The point value is the one the value table gives the card's rank. */
  lemma ValueIsTabled(c: Card)
    ensures c.rank in VALUES && Value(c) == VALUES[c.rank]
  {
  }

  /** The validating constructor: a rank outside the table or an unknown suit name is refused. */
  function MakeCard(rank: int, suit: string): (r: Result<Card, CardError>)
    ensures r.Ok? <==> (ACE <= rank <= KING && ParseSuit(suit).Some?)
    ensures r.Err? <==> (rank !in RANKS || forall s: Suit :: SuitName(s) != suit)
    ensures r.Ok? ==> r.value.rank == rank && SuitName(r.value.suit) == suit
  {
    if rank !in RANKS || ParseSuit(suit).None? then Err(NoSuchCard)
    else Ok(Card(rank, ParseSuit(suit).value))
  }

  /** `__eq__`: rank and suit both match. */
  predicate SameCard(a: Card, b: Card)
  {
    a.rank == b.rank && a.suit == b.suit
  }

  /** Python's `<` on strings: lexicographic by character code, a proper prefix first. */
  function StrLess(a: string, b: string): bool
  {
    if |b| == 0 then false
    else if |a| == 0 then true
    else if a[0] != b[0] then a[0] < b[0]
    else StrLess(a[1..], b[1..])
  }

  /** `__cmp__`: the rank difference when ranks differ, otherwise -1, 0 or 1 by suit name. */
  function Compare(a: Card, b: Card): int
  {
    var rankCmp := a.rank - b.rank;
    if rankCmp != 0 then rankCmp
    else if StrLess(SuitName(a.suit), SuitName(b.suit)) then -1
    else if StrLess(SuitName(b.suit), SuitName(a.suit)) then 1
    else 0
  }

  /** The `<` that `sorted` and tuple comparison use on cards. */
  predicate CardLess(a: Card, b: Card)
  {
    Compare(a, b) < 0
  }

  /** Position of a suit in the alphabetical order of the suit names. */
  function SuitPosition(s: Suit): nat
  {
    match s
    case Clubs => 0
    case Diamonds => 1
    case Hearts => 2
    case Spades => 3
  }

  lemma SuitNamesOrdered(s: Suit, t: Suit)
    ensures StrLess(SuitName(s), SuitName(t)) <==> SuitPosition(s) < SuitPosition(t)
  {
    // the four names already differ in their first letter: c < d < h < s
    assert SuitName(s)[0] != SuitName(t)[0] || s == t;
    if s == t {
      StrLessIrreflexive(SuitName(s));
    }
  }

  lemma {:induction false} StrLessIrreflexive(a: string)
    ensures !StrLess(a, a)
  {
    if |a| > 0 {
      StrLessIrreflexive(a[1..]);
    }
  }

  /** Comparing by rank, then by suit name, is comparing by rank, then by suit position. */
  lemma CompareBySuitPosition(a: Card, b: Card)
    ensures Compare(a, b) < 0 <==>
      a.rank < b.rank || (a.rank == b.rank && SuitPosition(a.suit) < SuitPosition(b.suit))
    ensures Compare(a, b) == 0 <==> a == b
  {
    SuitNamesOrdered(a.suit, b.suit);
    SuitNamesOrdered(b.suit, a.suit);
  }

  /** `__cmp__` returns 0 exactly for equal cards and is antisymmetric in sign. */
  lemma CompareConsistentWithEquality(a: Card, b: Card)
    ensures Compare(a, b) == 0 <==> SameCard(a, b)
    ensures Compare(a, b) < 0 <==> Compare(b, a) > 0
  {
    CompareBySuitPosition(a, b);
    CompareBySuitPosition(b, a);
  }

  /** The card order is a strict total order: irreflexive, transitive and connected. */
  lemma CardLessStrictTotal(a: Card, b: Card, c: Card)
    ensures !CardLess(a, a)
    ensures CardLess(a, b) && CardLess(b, c) ==> CardLess(a, c)
    ensures a != b ==> CardLess(a, b) || CardLess(b, a)
  {
    CompareBySuitPosition(a, a);
    CompareBySuitPosition(a, b);
    CompareBySuitPosition(b, a);
    CompareBySuitPosition(b, c);
    CompareBySuitPosition(a, c);
  }

  /** The order of the suit table's keys used when the deck is built. */
  const DeckSuits: seq<Suit> := [Spades, Hearts, Diamonds, Clubs]

  function DeckSuitIndex(s: Suit): (i: nat)
    ensures i < 4 && DeckSuits[i] == s
  {
    match s
    case Spades => 0
    case Hearts => 1
    case Diamonds => 2
    case Clubs => 3
  }

  /** `Deck.all_cards`: the product of ranks and suits, rank-major. */
  function FullDeck(): (d: seq<Card>)
    ensures |d| == 52
    ensures forall i, j :: 0 <= i < j < |d| ==> d[i] != d[j]
    ensures forall c: Card :: d[(c.rank - 1) * 4 + DeckSuitIndex(c.suit)] == c
    ensures forall c: Card :: c in d
  {
    var d := seq(52, i requires 0 <= i < 52 => Card(i / 4 + 1, DeckSuits[i % 4]));
    forall c: Card ensures d[(c.rank - 1) * 4 + DeckSuitIndex(c.suit)] == c {
      var k := (c.rank - 1) * 4 + DeckSuitIndex(c.suit);
      assert k / 4 == c.rank - 1 && k % 4 == DeckSuitIndex(c.suit);
    }
    forall c: Card ensures c in d {
      assert d[(c.rank - 1) * 4 + DeckSuitIndex(c.suit)] == c;
    }
    forall i, j | 0 <= i < j < |d| ensures d[i] != d[j] {
      if i / 4 == j / 4 {
        assert i % 4 != j % 4;
        assert d[i].suit != d[j].suit;
      } else {
        assert d[i].rank != d[j].rank;
      }
    }
    d
  }

  /**
    The `Deck` class. One `Deck` object stands for the class itself, and
    its field `cache` for the class-level `_all_cards` memo: the first call
    fills it, later calls return it unchanged.
  */
  class Deck {
    var cache: Option<seq<Card>>

    ghost predicate Valid()
      reads this
    {
      cache.Some? ==> cache.value == FullDeck()
    }

    constructor()
      ensures Valid() && cache == None
    {
      cache := None;
    }

    method AllCards() returns (cards: seq<Card>)
      requires Valid()
      modifies this
      ensures Valid()
      ensures cards == FullDeck() && cache == Some(cards)
    {
      if cache.Some? {
        return cache.value;
      }
      cards := FullDeck();
      cache := Some(cards);
    }

    /**
      `Deck.draw`: refused for a count outside 0..52; otherwise some `n`
      distinct cards of the deck (the model takes the first `n`, which is one
      of the samples `random.sample` may return).
    */
    method Draw(n: int) returns (r: Result<seq<Card>, DeckError>)
      requires Valid()
      modifies this
      ensures Valid()
      ensures r.Err? <==> n < 0 || n > 52
      ensures r.Ok? ==> |r.value| == n
      ensures r.Ok? ==> forall i, j :: 0 <= i < j < |r.value| ==> r.value[i] != r.value[j]
    {
      if n < 0 || n > 52 {
        return Err(DrawCountOutOfRange);
      }
      var all := AllCards();
      r := Ok(all[..n]);
    }
  }
}
