/** `Deck.shuffle`: pop every card into a list, shuffle the list with
    `Collections.shuffle`, push the list back card by card.

    The random source is a parameter: `rolls` are the answers `nextInt` gives to
    `Collections.shuffle`, which walks `i` from the list size down to 2 and
    swaps position `i - 1` with position `nextInt(i)`. */
module Shuffling {
  import opened Cards
  import opened Decks

  /** `Collections.swap`. */
  function Swap<T>(s: seq<T>, i: nat, j: nat): (r: seq<T>)
    requires i < |s| && j < |s|
    ensures |r| == |s| && r[i] == s[j] && r[j] == s[i]
    ensures forall k :: 0 <= k < |s| && k != i && k != j ==> r[k] == s[k]
    ensures multiset(r) == multiset(s)
  {
    s[i := s[j]][j := s[i]]
  }

  /** How many random indices shuffling `n` elements asks for. */
  function Swaps(n: nat): nat {
    if n <= 1 then 0 else n - 1
  }

  /** `rolls` answer `nextInt(n)`, `nextInt(n - 1)`, ..., `nextInt(2)` in turn. */
  predicate ValidRolls(rolls: seq<nat>, n: nat) {
    |rolls| == Swaps(n) && forall k :: 0 <= k < |rolls| ==> rolls[k] < n - k
  }

  /** The swap loop of `Collections.shuffle` over positions `0 .. i - 1`,
      starting at `i`. */
  function ShuffleList<T>(list: seq<T>, i: nat, rolls: seq<nat>): (r: seq<T>)
    requires i <= |list| && ValidRolls(rolls, i)
    ensures |r| == |list|
    ensures multiset(r) == multiset(list)
    ensures r[i..] == list[i..]
    decreases |rolls|
  {
    if i <= 1 then list
    else ShuffleList(Swap(list, i - 1, rolls[0]), i - 1, rolls[1..])
  }

  /** `list.forEach(cards::push)`: pushes each element of `list` in turn, so the
      last one ends on top. */
  function PushAll(d: Deck, list: seq<Card>): Deck
    decreases |list|
  {
    if |list| == 0 then d else PushAll(Push(list[0], d), list[1..])
  }

  function Reverse<T>(s: seq<T>): (r: seq<T>)
    ensures |r| == |s|
    ensures forall k :: 0 <= k < |s| ==> r[k] == s[|s| - 1 - k]
    decreases |s|
  {
    if |s| == 0 then [] else Reverse(s[1..]) + [s[0]]
  }

  /** Pushing a list onto a deck puts it there in reverse. */
  lemma {:induction false} PushAllReverses(d: Deck, list: seq<Card>)
    ensures PushAll(d, list).cards == Reverse(list) + d.cards
    decreases |list|
  {
    if |list| > 0 {
      PushAllReverses(Push(list[0], d), list[1..]);
      assert Reverse(list[1..]) + ([list[0]] + d.cards) == Reverse(list) + d.cards;
    }
  }

  /** `Deck.shuffle`: popping every card yields them top first; the list is
      shuffled and pushed back onto the now empty deck. */
  function Shuffle(d: Deck, rolls: seq<nat>): (r: Deck)
    requires ValidRolls(rolls, |d.cards|)
    ensures |r.cards| == |d.cards|
    ensures multiset(r.cards) == multiset(d.cards)
  {
    var list := ShuffleList(d.cards, |d.cards|, rolls);
    PushAllReverses(Deck([]), list);
    assert multiset(Reverse(list)) == multiset(list) by {
      ReverseMultiset(list);
    }
    PushAll(Deck([]), list)
  }

  lemma {:induction false} ReverseMultiset<T>(s: seq<T>)
    ensures multiset(Reverse(s)) == multiset(s)
    decreases |s|
  {
    if |s| > 0 {
      ReverseMultiset(s[1..]);
      assert s == [s[0]] + s[1..];
    }
  }

  lemma {:induction false} ReverseReverse<T>(s: seq<T>)
    ensures Reverse(Reverse(s)) == s
  {
    var r := Reverse(Reverse(s));
    assert |r| == |s|;
    forall k | 0 <= k < |s| ensures r[k] == s[k] {
    }
  }

  /** A swap of two positions below `i` keeps the multiset of the first `i`
      elements. */
  lemma SwapPrefixMultiset<T>(s: seq<T>, a: nat, b: nat, i: nat)
    requires a < i && b < i && i <= |s|
    ensures multiset(Swap(s, a, b)[..i]) == multiset(s[..i])
  {
    assert Swap(s, a, b)[..i] == Swap(s[..i], a, b);
  }

  /** With at most one position to shuffle the only rearrangement is the
      list itself. */
  lemma RollsForShort<T>(list: seq<T>, t: seq<T>, i: nat)
    requires i <= 1 && i <= |list| == |t|
    requires list[i..] == t[i..]
    requires multiset(list[..i]) == multiset(t[..i])
    ensures list == t
  {
    if i == 1 {
      assert list[..1] == [list[0]] && t[..1] == [t[0]];
      assert list[0] in multiset{t[0]};
      assert list == list[..1] + list[1..] && t == t[..1] + t[1..];
    } else {
      assert list == list[0..] && t == t[0..];
    }
  }

  lemma DropLastMultiset<T>(a: seq<T>, b: seq<T>, i: nat)
    requires 1 <= i <= |a| && i <= |b|
    requires multiset(a[..i]) == multiset(b[..i]) && a[i - 1] == b[i - 1]
    ensures multiset(a[..i - 1]) == multiset(b[..i - 1])
  {
    assert a[..i] == a[..i - 1] + [a[i - 1]];
    assert b[..i] == b[..i - 1] + [b[i - 1]];
    var e := multiset{a[i - 1]};
    var left, right := multiset(a[..i - 1]), multiset(b[..i - 1]);
    assert left + e == right + e;
    assert left == (left + e) - e;
    assert right == (right + e) - e;
  }

  lemma ExtendSuffix<T>(a: seq<T>, b: seq<T>, i: nat)
    requires 1 <= i <= |a| == |b|
    requires a[i..] == b[i..] && a[i - 1] == b[i - 1]
    ensures a[i - 1..] == b[i - 1..]
  {
    assert a[i - 1..] == [a[i - 1]] + a[i..];
    assert b[i - 1..] == [b[i - 1]] + b[i..];
  }

  /** Where an element of a prefix's multiset sits in the prefix. */
  lemma IndexOf<T>(s: seq<T>, i: nat, x: T) returns (k: nat)
    requires i <= |s| && x in multiset(s[..i])
    ensures k < i && s[k] == x
  {
    assert x in s[..i];
    var m :| 0 <= m < i && s[..i][m] == x;
    k := m;
  }

  /** Swapping the element `t` wants last into position `i - 1` fixes that
      position and keeps the rest of the prefix a rearrangement of `t`'s. */
  lemma RollsForStep<T>(list: seq<T>, t: seq<T>, i: nat) returns (j: nat)
    requires 2 <= i <= |list| == |t|
    requires list[i..] == t[i..]
    requires multiset(list[..i]) == multiset(t[..i])
    ensures j < i
    ensures Swap(list, i - 1, j)[i - 1..] == t[i - 1..]
    ensures multiset(Swap(list, i - 1, j)[..i - 1]) == multiset(t[..i - 1])
  {
    assert t[i - 1] in multiset(t[..i]) by {
      assert t[..i][i - 1] == t[i - 1];
    }
    j := IndexOf(list, i, t[i - 1]);
    var swapped := Swap(list, i - 1, j);
    SwapPrefixMultiset(list, i - 1, j, i);
    DropLastMultiset(swapped, t, i);
    assert swapped[i..] == list[i..];
    ExtendSuffix(swapped, t, i);
  }

  /** Completeness of the swap loop: any rearrangement `t` of the first `i`
      elements of `list` that leaves the rest in place is what some answers of
      the random source produce. */
  lemma {:induction false} RollsFor<T>(list: seq<T>, t: seq<T>, i: nat) returns (rolls: seq<nat>)
    requires i <= |list| == |t|
    requires list[i..] == t[i..]
    requires multiset(list[..i]) == multiset(t[..i])
    ensures ValidRolls(rolls, i)
    ensures ShuffleList(list, i, rolls) == t
    decreases i
  {
    if i <= 1 {
      RollsForShort(list, t, i);
      rolls := [];
    } else {
      var j := RollsForStep(list, t, i);
      var swapped := Swap(list, i - 1, j);
      var rest := RollsFor(swapped, t, i - 1);
      rolls := [j] + rest;
      assert rolls[0] == j && rolls[1..] == rest;
      assert ValidRolls(rolls, i) by {
        forall k | 0 <= k < |rolls| ensures rolls[k] < i - k {
          if k > 0 {
            assert rolls[k] == rest[k - 1];
          }
        }
      }
      assert ShuffleList(list, i, rolls) == ShuffleList(swapped, i - 1, rest);
    }
  }

  /** `shuffle` can leave the deck in any order of its cards: for every
      rearrangement some answers of the random source produce it. */
  lemma ShuffleReachesEveryPermutation(d: Deck, target: Deck) returns (rolls: seq<nat>)
    requires multiset(target.cards) == multiset(d.cards)
    ensures ValidRolls(rolls, |d.cards|)
    ensures Shuffle(d, rolls) == target
  {
    var t := Reverse(target.cards);
    ReverseMultiset(target.cards);
    assert |target.cards| == |d.cards| by {
      assert |multiset(target.cards)| == |multiset(d.cards)|;
    }
    assert d.cards[..|d.cards|] == d.cards && t[..|t|] == t;
    rolls := RollsFor(d.cards, t, |d.cards|);
    var list := ShuffleList(d.cards, |d.cards|, rolls);
    PushAllReverses(Deck([]), list);
    ReverseReverse(target.cards);
    assert Reverse(list) + [] == target.cards;
  }

  /** Drawing all 52 cards of a rearrangement of a deck with thirteen cards
      of each suit yields thirteen of each suit, so all four suits occur. */
  lemma DrawsBySuit(cards: seq<Card>, base: seq<Card>)
    requires multiset(cards) == multiset(base)
    requires |base| == 52 && forall s :: CountSuit(base, s) == 13
    ensures |cards| == 52
    ensures DrawN(Deck(cards), |cards|).Success?
    ensures DrawN(Deck(cards), |cards|).value.0 == cards
    ensures forall s :: CountSuit(cards, s) == 13
    ensures (set i | 0 <= i < |cards| :: cards[i].suit) == {Hearts, Diamonds, Spades, Clubs}
  {
    assert |cards| == 52 by {
      assert |multiset(cards)| == |multiset(base)|;
    }
    assert cards[..|cards|] == cards;
    forall s ensures CountSuit(cards, s) == 13 {
      CountSuitPermutation(cards, base, s);
    }
    AllSuitsOccur(cards);
  }

  /** However the standard deck is shuffled, drawing 52 cards from it succeeds
      and yields every card of the standard deck exactly once, thirteen cards
      of each suit, so all four suits occur. */
  lemma ShuffledStandardDraws(rolls: seq<nat>)
    requires ValidRolls(rolls, 52)
    ensures var r := DrawN(Shuffle(Standard(), rolls), 52);
            && r.Success?
            && multiset(r.value.0) == multiset(Standard().cards)
            && (forall s :: CountSuit(r.value.0, s) == 13)
            && (set i | 0 <= i < |r.value.0| :: r.value.0[i].suit) == {Hearts, Diamonds, Spades, Clubs}
  {
    StandardShape();
    DrawsBySuit(Shuffle(Standard(), rolls).cards, Standard().cards);
  }
}
