/** Suits and cards of the game (`Game.Suit`, `Game.Card`). */
module Cards {
  import opened JavaInt

  datatype Suit = Hearts | Diamonds | Spades | Clubs

  /** The suits in declaration order, which is the order `Suit.values()` yields. */
  const AllSuits: seq<Suit> := [Hearts, Diamonds, Spades, Clubs]

  /** A card's display name: the digits of a numbered card, or a face or ace label. */
  datatype Name = Pip(n: int) | Jack | Queen | King | Ace

  datatype Card = Card(suit: Suit, name: Name, value: int32)

  /** `Card.number(suit, n)`: a numbered card whose name is its number and whose
      value is that number. */
  function Number(suit: Suit, n: int32): (c: Card)
    ensures c.suit == suit && c.value == n
    ensures c.name.Pip? && c.name.n == n
  {
    Card(suit, Pip(n), n)
  }

  /** The point value a card of a standard deck carries for its name: the number
      for 2..10, ten for Jack, Queen and King, eleven for the Ace. */
  predicate IsStandard(c: Card) {
    match c.name
    case Pip(n) => 2 <= n <= 10 && c.value == n
    case Jack => c.value == 10
    case Queen => c.value == 10
    case King => c.value == 10
    case Ace => c.value == 11
  }

  /** `Card.number` makes exactly the numbered cards of a standard deck when
      its number is between 2 and 10, and a card no standard deck holds
      otherwise. */
  lemma NumberIsStandard(suit: Suit, n: int32)
    ensures IsStandard(Number(suit, n)) <==> 2 <= n <= 10
  {
  }

  /** Sum of the card values as mathematical integers (no wrap-around). */
  function Sum(cards: seq<Card>): int {
    if |cards| == 0 then 0 else Sum(cards[..|cards| - 1]) + cards[|cards| - 1].value
  }

  /** Number of cards of suit `s`. */
  function CountSuit(cards: seq<Card>, s: Suit): nat {
    if |cards| == 0 then 0
    else CountSuit(cards[..|cards| - 1], s) + (if cards[|cards| - 1].suit == s then 1 else 0)
  }

  lemma {:induction false} CountSuitAppend(a: seq<Card>, b: seq<Card>, s: Suit)
    ensures CountSuit(a + b, s) == CountSuit(a, s) + CountSuit(b, s)
    decreases |b|
  {
    if |b| == 0 {
      assert a + b == a;
    } else {
      assert (a + b)[..|a + b| - 1] == a + b[..|b| - 1];
      CountSuitAppend(a, b[..|b| - 1], s);
    }
  }

  /** In a run of cards that all share suit `t`, `t` occurs once per card and no
      other suit occurs. */
  lemma {:induction false} CountSuitUniform(cards: seq<Card>, t: Suit, s: Suit)
    requires forall i :: 0 <= i < |cards| ==> cards[i].suit == t
    ensures CountSuit(cards, s) == if s == t then |cards| else 0
    decreases |cards|
  {
    if |cards| > 0 {
      CountSuitUniform(cards[..|cards| - 1], t, s);
    }
  }

  /** Taking the card at position `k` out of a run of cards. */
  function RemoveAt(b: seq<Card>, k: nat): (r: seq<Card>)
    requires k < |b|
    ensures multiset(r) == multiset(b) - multiset{b[k]}
    ensures forall s :: CountSuit(b, s) == CountSuit(r, s) + (if b[k].suit == s then 1 else 0)
  {
    var left, right := b[..k], b[k + 1..];
    assert b == left + [b[k]] + right;
    forall s ensures CountSuit(b, s) == CountSuit(left + right, s) + (if b[k].suit == s then 1 else 0) {
      CountSuitAppend(left, right, s);
      CountSuitAppend(left + [b[k]], right, s);
      CountSuitAppend(left, [b[k]], s);
    }
    left + right
  }

  /** Rearranging cards does not change how many there are of each suit. */
  lemma {:induction false} CountSuitPermutation(a: seq<Card>, b: seq<Card>, s: Suit)
    requires multiset(a) == multiset(b)
    ensures CountSuit(a, s) == CountSuit(b, s)
    decreases |a|
  {
    if |a| == 0 {
      assert |b| == |multiset(b)| == 0;
      assert b == [];
      assert CountSuit(a, s) == 0 == CountSuit(b, s);
    } else {
      var init, x := a[..|a| - 1], a[|a| - 1];
      assert CountSuit(a, s) == CountSuit(init, s) + (if x.suit == s then 1 else 0);
      assert a == init + [x];
      assert x in multiset(b);
      var k :| 0 <= k < |b| && b[k] == x;
      var rest := RemoveAt(b, k);
      assert multiset(rest) == multiset(init) by {
        var e := multiset{x};
        assert multiset(a) == multiset(init) + e;
        assert multiset(init) == (multiset(init) + e) - e;
      }
      CountSuitPermutation(init, rest, s);
      assert CountSuit(b, s) == CountSuit(rest, s) + (if x.suit == s then 1 else 0);
      assert CountSuit(a, s) == CountSuit(b, s);
    }
  }

  /** A suit that is counted occurs at some position. */
  lemma {:induction false} SuitOccurs(cards: seq<Card>, s: Suit) returns (i: nat)
    requires CountSuit(cards, s) > 0
    ensures i < |cards| && cards[i].suit == s
    decreases |cards|
  {
    if cards[|cards| - 1].suit == s {
      i := |cards| - 1;
    } else {
      i := SuitOccurs(cards[..|cards| - 1], s);
    }
  }

  /** When every suit is counted, the suits that occur are all four. */
  lemma AllSuitsOccur(cards: seq<Card>)
    requires forall s :: CountSuit(cards, s) > 0
    ensures (set i | 0 <= i < |cards| :: cards[i].suit) == {Hearts, Diamonds, Spades, Clubs}
  {
    var suits := set i | 0 <= i < |cards| :: cards[i].suit;
    forall t ensures t in suits {
      var i := SuitOccurs(cards, t);
    }
    forall t | t in suits ensures t in {Hearts, Diamonds, Spades, Clubs} {
      assert t.Hearts? || t.Diamonds? || t.Spades? || t.Clubs?;
    }
  }
}
