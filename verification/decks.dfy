/** `Game.Deck`: an ordered stack of cards with `draw`, the explicit
    constructor `of`, and the 52-card `standard` deck. */
module Decks {
  import opened Cards
  import opened Results

  /** A deck as a stack: `cards[0]` is the top, the card `draw` returns next. */
  datatype Deck = Deck(cards: seq<Card>)

  /** The exception `ArrayDeque.pop` throws on an empty deck. */
  datatype DeckError = EmptyDeck

  /** `Deck.of(c1, ..., cn)` (and the constructor from a collection): the cards
      keep their order, the first one on top. */
  function Of(cards: seq<Card>): Deck {
    Deck(cards)
  }

  /** `ArrayDeque.push`: puts a card on top. */
  function Push(c: Card, d: Deck): Deck {
    Deck([c] + d.cards)
  }

  /** `Deck.draw`: takes the top card off, or fails on an empty deck. */
  function Draw(d: Deck): (r: Result<(Card, Deck), DeckError>)
    ensures r.Failure? <==> |d.cards| == 0
    ensures r.Success? ==> Push(r.value.0, r.value.1) == d
    ensures r.Success? ==> |r.value.1.cards| == |d.cards| - 1
  {
    if |d.cards| == 0 then Failure(EmptyDeck) else Success((d.cards[0], Deck(d.cards[1..])))
  }

  /** Drawing undoes a push: the card pushed last comes back first and the
      deck under it is left as it was. */
  lemma DrawAfterPush(c: Card, d: Deck)
    ensures Draw(Push(c, d)) == Success((c, d))
  {
    assert ([c] + d.cards)[1..] == d.cards;
  }

  /** The first draw from `Deck.of(c1, ..., cn)` returns `c1` and leaves
      `c2, ..., cn` in order. */
  lemma DrawOf(cards: seq<Card>)
    requires |cards| > 0
    ensures Draw(Of(cards)) == Success((cards[0], Of(cards[1..])))
  {
  }

  /** `n` calls of `draw` in a row: the cards drawn in order and the deck left,
      or the failure of the first `draw` that finds the deck empty. */
  function DrawN(d: Deck, n: nat): (r: Result<(seq<Card>, Deck), DeckError>)
    ensures r.Success? <==> n <= |d.cards|
    ensures r.Success? ==> r.value.0 == d.cards[..n] && r.value.1.cards == d.cards[n..]
    decreases n
  {
    if n == 0 then Success(([], d))
    else
      match Draw(d)
      case Failure(e) => Failure(e)
      case Success((c, rest)) =>
        match DrawN(rest, n - 1)
        case Failure(e) => Failure(e)
        case Success((cs, left)) => Success(([c] + cs, left))
  }

  /** The thirteen cards `Deck.standard` adds for one suit: 2..10, then Jack,
      Queen, King and Ace. */
  function SuitCards(suit: Suit): seq<Card> {
    seq(9, i requires 0 <= i < 9 => Number(suit, i + 2))
    + [Card(suit, Jack, 10), Card(suit, Queen, 10), Card(suit, King, 10), Card(suit, Ace, 11)]
  }

  /** The cards added for each suit of `suits` in turn. */
  function StandardCards(suits: seq<Suit>): seq<Card> {
    if |suits| == 0 then [] else SuitCards(suits[0]) + StandardCards(suits[1..])
  }

  /** `Deck.standard()`: suit-major, rank-ascending, not shuffled. */
  function Standard(): Deck {
    Deck(StandardCards(AllSuits))
  }

  /** Card `i` of the construction is card `i % 13` of suit number `i / 13`. */
  lemma {:induction false} StandardCardsIndex(suits: seq<Suit>)
    ensures |StandardCards(suits)| == 13 * |suits|
    ensures forall i :: 0 <= i < |StandardCards(suits)| ==>
              StandardCards(suits)[i] == SuitCards(suits[i / 13])[i % 13]
  {
    if |suits| > 0 {
      StandardCardsIndex(suits[1..]);
      var rest := StandardCards(suits[1..]);
      forall i | 0 <= i < |StandardCards(suits)|
        ensures StandardCards(suits)[i] == SuitCards(suits[i / 13])[i % 13]
      {
        if i >= 13 {
          assert StandardCards(suits)[i] == rest[i - 13];
          assert (i - 13) / 13 == i / 13 - 1 && (i - 13) % 13 == i % 13;
        }
      }
    }
  }

  /** One suit's cards are pairwise different and all standard. */
  lemma SuitCardsFacts(suit: Suit)
    ensures |SuitCards(suit)| == 13
    ensures forall i :: 0 <= i < 13 ==> SuitCards(suit)[i].suit == suit
    ensures forall i :: 0 <= i < 13 ==> IsStandard(SuitCards(suit)[i])
    ensures forall i, j :: 0 <= i < j < 13 ==> SuitCards(suit)[i] != SuitCards(suit)[j]
  {
  }

  /** Every standard card of a given suit is among that suit's thirteen. */
  lemma SuitCardsComplete(c: Card)
    requires IsStandard(c)
    ensures c in SuitCards(c.suit)
  {
    var cs := SuitCards(c.suit);
    match c.name
    case Pip(n) => assert cs[n - 2] == c;
    case Jack => assert cs[9] == c;
    case Queen => assert cs[10] == c;
    case King => assert cs[11] == c;
    case Ace => assert cs[12] == c;
  }

  /** `Deck.standard` holds thirteen cards of suit `t`. */
  lemma StandardSuitCount(t: Suit)
    ensures CountSuit(Standard().cards, t) == 13
  {
    var h, d, s, c := SuitCards(Hearts), SuitCards(Diamonds), SuitCards(Spades), SuitCards(Clubs);
    assert Standard().cards == h + (d + (s + (c + [])));
    SuitCardsFacts(Hearts);
    SuitCardsFacts(Diamonds);
    SuitCardsFacts(Spades);
    SuitCardsFacts(Clubs);
    CountSuitUniform(h, Hearts, t);
    CountSuitUniform(d, Diamonds, t);
    CountSuitUniform(s, Spades, t);
    CountSuitUniform(c, Clubs, t);
    assert c + [] == c;
    CountSuitAppend(s, c, t);
    CountSuitAppend(d, s + c, t);
    CountSuitAppend(h, d + (s + c), t);
  }

  /** `Deck.standard` holds 52 cards, thirteen of each of the four suits. */
  lemma StandardShape()
    ensures |Standard().cards| == 52
    ensures forall s :: CountSuit(Standard().cards, s) == 13
    ensures (set i | 0 <= i < |Standard().cards| :: Standard().cards[i].suit)
            == {Hearts, Diamonds, Spades, Clubs}
  {
    var cards := Standard().cards;
    StandardCardsIndex(AllSuits);
    forall t ensures CountSuit(cards, t) == 13 {
      StandardSuitCount(t);
    }
    var suits := set i | 0 <= i < |cards| :: cards[i].suit;
    assert cards[0].suit == Hearts && cards[13].suit == Diamonds;
    assert cards[26].suit == Spades && cards[39].suit == Clubs;
    assert suits == {Hearts, Diamonds, Spades, Clubs};
  }

  /** The standard deck holds exactly the standard cards of every suit: a card
      is in it if and only if its value is the one its name gives it. */
  lemma StandardContents()
    ensures forall c :: c in Standard().cards <==> IsStandard(c)
  {
    var cards := Standard().cards;
    StandardCardsIndex(AllSuits);
    forall c | c in cards ensures IsStandard(c) {
      var i :| 0 <= i < |cards| && cards[i] == c;
      SuitCardsFacts(AllSuits[i / 13]);
    }
    forall c | IsStandard(c) ensures c in cards {
      SuitCardsComplete(c);
      var k :| 0 <= k < 13 && SuitCards(c.suit)[k] == c;
      var q := match c.suit case Hearts => 0 case Diamonds => 1 case Spades => 2 case Clubs => 3;
      assert AllSuits[q] == c.suit;
      assert (13 * q + k) / 13 == q && (13 * q + k) % 13 == k;
      assert cards[13 * q + k] == c;
    }
  }

  /** No card occurs twice in the standard deck. */
  lemma StandardDistinct()
    ensures forall i, j :: 0 <= i < j < |Standard().cards| ==> Standard().cards[i] != Standard().cards[j]
  {
    var cards := Standard().cards;
    StandardCardsIndex(AllSuits);
    forall i, j | 0 <= i < j < |cards| ensures cards[i] != cards[j] {
      SuitCardsFacts(AllSuits[i / 13]);
      SuitCardsFacts(AllSuits[j / 13]);
      if i / 13 == j / 13 {
        assert i % 13 < j % 13;
      } else {
        assert AllSuits[i / 13] != AllSuits[j / 13];
      }
    }
  }
}
