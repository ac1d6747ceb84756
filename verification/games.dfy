/** `Game`: the damage rule and the draw-while-safe play loop. */
module Games {
  import opened JavaInt
  import opened Results
  import opened Cards
  import opened Decks
  import opened Shuffling

  /** The score ceiling. */
  const MAX_SCORE: int32 := 21

  /** `Math.max` on two ints. */
  function Max(a: int, b: int): int {
    if a >= b then a else b
  }

  /** `getAppliedDamage`: stopping above the ceiling is a bust and does no damage;
      stopping at or below it does `score - 21 + maxDamage`, but never less than
      zero. The subtraction and addition are Java `int` operations. */
  function AppliedDamage(score: int32, maxDamage: int32): (r: int32)
    ensures r >= 0
    ensures score > MAX_SCORE ==> r == 0
    ensures score <= MAX_SCORE ==> r == Max(0, Wrap(score - MAX_SCORE + maxDamage))
    ensures score <= MAX_SCORE && InRange(score - MAX_SCORE + maxDamage) ==>
              r == Max(0, score - MAX_SCORE + maxDamage)
  {
    if score > MAX_SCORE then 0
    else
      WrapAddWrap(score - MAX_SCORE, maxDamage);
      Max(0, Add(Sub(score, MAX_SCORE), maxDamage))
  }

  /** Stopping exactly on the ceiling does the full `maxDamage` (or nothing when
      `maxDamage` is negative). */
  lemma DamageAtCeiling(maxDamage: int32)
    ensures AppliedDamage(MAX_SCORE, maxDamage) == Max(0, maxDamage)
  {
  }

  /** For a non-negative score and `maxDamage`, damage is done exactly when the
      score lies within `maxDamage` of the ceiling, and it never exceeds
      `maxDamage`. */
  lemma DamageWindow(score: int32, maxDamage: int32)
    requires 0 <= score && 0 <= maxDamage
    ensures AppliedDamage(score, maxDamage) != 0 <==> MAX_SCORE - maxDamage < score <= MAX_SCORE
    ensures AppliedDamage(score, maxDamage) <= maxDamage
  {
    if score <= MAX_SCORE {
      assert InRange(maxDamage);
      assert InRange(score - MAX_SCORE + maxDamage);
    }
  }

  /** At a score between 0 and 21 the damage expression is the plain
      `score - 21 + maxDamage` unless `maxDamage` lies within 21 of
      `Integer.MIN_VALUE`; below that it wraps around to a large positive
      damage. */
  lemma DamageWrap(score: int32, maxDamage: int32)
    requires 0 <= score <= MAX_SCORE
    ensures MIN + MAX_SCORE <= maxDamage ==>
              AppliedDamage(score, maxDamage) == Max(0, score - MAX_SCORE + maxDamage)
    ensures maxDamage < MIN + MAX_SCORE - score ==>
              AppliedDamage(score, maxDamage) == score - MAX_SCORE + maxDamage + MODULUS > 0
  {
    assert InRange(score) && InRange(maxDamage);
    var x := score - MAX_SCORE + maxDamage;
    if MIN + MAX_SCORE <= maxDamage {
      assert InRange(x);
    }
    if maxDamage < MIN + MAX_SCORE - score {
      assert InRange(x + MODULUS);
      WrapCongruent(x, x + MODULUS);
    }
  }

  /** With `maxDamage` equal to `Integer.MIN_VALUE`, stopping at once already
      does 2147483627 damage, so `play` draws nothing from any deck. */
  lemma PlayWithMinimalMaxDamage(d: Deck)
    ensures Play(Game(-0x8000_0000, d)) == Success(Outcome(0x7FFF_FFEB, 0, []))
  {
    DamageWrap(0, -0x8000_0000);
  }

  /** The loop condition of `play`: below the ceiling and stopping would still do
      no damage. */
  predicate Continues(score: int32, maxDamage: int32) {
    score < MAX_SCORE && AppliedDamage(score, maxDamage) == 0
  }

  /** The running score after drawing `cards` in order, accumulated with Java
      `int` addition. */
  function ScoreOf(cards: seq<Card>): int32 {
    if |cards| == 0 then 0 else Add(ScoreOf(cards[..|cards| - 1]), cards[|cards| - 1].value)
  }

  /** The running score is the wrapped sum of the values; without overflow it is
      the sum itself. */
  lemma {:induction false} ScoreIsWrappedSum(cards: seq<Card>)
    ensures ScoreOf(cards) == Wrap(Sum(cards))
    ensures InRange(Sum(cards)) ==> ScoreOf(cards) == Sum(cards)
    decreases |cards|
  {
    if |cards| > 0 {
      var init := cards[..|cards| - 1];
      ScoreIsWrappedSum(init);
      WrapAddWrap(Sum(init), cards[|cards| - 1].value);
    }
  }

  /** `Game`: the damage a weapon can do and the deck it owns. */
  datatype Game = Game(maxDamage: int32, deck: Deck)

  /** `Game.Result`: the damage done, the final score and the cards drawn in
      draw order. */
  datatype Outcome = Outcome(damageDone: int32, score: int32, drawn: seq<Card>)

  /** `Game.standard(maxDamage)`: a standard deck, shuffled with the random
      answers `rolls`. */
  function StandardGame(maxDamage: int32, rolls: seq<nat>): (g: Game)
    requires ValidRolls(rolls, 52)
    ensures g.maxDamage == maxDamage
    ensures multiset(g.deck.cards) == multiset(Standard().cards)
  {
    StandardShape();
    Game(maxDamage, Shuffle(Standard(), rolls))
  }

  /** The `while` loop of `play` from a state with running `score`, the cards
      `drawn` so far and the rest of the deck. */
  function PlayLoop(maxDamage: int32, deck: Deck, score: int32, drawn: seq<Card>): Result<Outcome, DeckError>
    decreases |deck.cards|
  {
    if score < MAX_SCORE && AppliedDamage(score, maxDamage) == 0 then
      match Draw(deck)
      case Failure(e) => Failure(e)
      case Success((card, rest)) => PlayLoop(maxDamage, rest, Add(score, card.value), drawn + [card])
    else
      Success(Outcome(AppliedDamage(score, maxDamage), score, drawn))
  }

  /** `Game.play`: fails with `EmptyDeck` when the deck runs out while the loop
      still wants a card. */
  function Play(g: Game): Result<Outcome, DeckError> {
    PlayLoop(g.maxDamage, g.deck, 0, [])
  }

  /** After drawing the first `n` cards of `cards` the loop stops. */
  predicate StopsAt(cards: seq<Card>, maxDamage: int32, n: nat) {
    n <= |cards| && !Continues(ScoreOf(cards[..n]), maxDamage)
  }

  /** What a play of `cards` must return, stated without the loop: the drawn
      cards are a prefix of the deck, the score is their running score, the
      damage is the damage at that score, the loop condition fails there and
      held after every shorter prefix. */
  predicate IsPlayOf(cards: seq<Card>, maxDamage: int32, o: Outcome) {
    && |o.drawn| <= |cards|
    && o.drawn == cards[..|o.drawn|]
    && o.score == ScoreOf(o.drawn)
    && o.damageDone == AppliedDamage(o.score, maxDamage)
    && !Continues(o.score, maxDamage)
    && forall j :: 0 <= j < |o.drawn| ==> Continues(ScoreOf(cards[..j]), maxDamage)
  }

  /** At most one outcome fits the description: the result of `play` is fixed by
      the deck and `maxDamage`. */
  lemma PlayOfUnique(cards: seq<Card>, maxDamage: int32, o1: Outcome, o2: Outcome)
    requires IsPlayOf(cards, maxDamage, o1) && IsPlayOf(cards, maxDamage, o2)
    ensures o1 == o2
  {
    var n1, n2 := |o1.drawn|, |o2.drawn|;
    if n1 < n2 {
      assert false;
    } else if n2 < n1 {
      assert false;
    }
  }

  /** One turn of the loop: when it continues after `k` cards, it draws card `k`
      and carries on with the first `k + 1` cards drawn. */
  lemma PlayLoopStep(maxDamage: int32, cards: seq<Card>, k: nat)
    requires k < |cards|
    requires Continues(ScoreOf(cards[..k]), maxDamage)
    ensures PlayLoop(maxDamage, Deck(cards[k..]), ScoreOf(cards[..k]), cards[..k])
            == PlayLoop(maxDamage, Deck(cards[k + 1..]), ScoreOf(cards[..k + 1]), cards[..k + 1])
  {
    var next := cards[..k + 1];
    assert next[..k] == cards[..k];
    assert ScoreOf(next) == Add(ScoreOf(cards[..k]), cards[k].value);
    assert cards[k..][1..] == cards[k + 1..];
    assert next == cards[..k] + [cards[k]];
  }

  /** Where the loop condition fails the loop returns at once, with the
      outcome `IsPlayOf` describes. */
  lemma PlayLoopStops(maxDamage: int32, cards: seq<Card>, k: nat)
    requires k <= |cards|
    requires forall j :: 0 <= j < k ==> Continues(ScoreOf(cards[..j]), maxDamage)
    requires !Continues(ScoreOf(cards[..k]), maxDamage)
    ensures var r := PlayLoop(maxDamage, Deck(cards[k..]), ScoreOf(cards[..k]), cards[..k]);
            && r.Success? && StopsAt(cards, maxDamage, k)
            && IsPlayOf(cards, maxDamage, r.value)
  {
    assert cards[..k][..k] == cards[..k];
  }

  /** With every card drawn and the loop still wanting one, `pop` fails and
      no prefix stops the loop. */
  lemma PlayLoopRunsOut(maxDamage: int32, cards: seq<Card>)
    requires forall j :: 0 <= j <= |cards| ==> Continues(ScoreOf(cards[..j]), maxDamage)
    ensures PlayLoop(maxDamage, Deck(cards[|cards|..]), ScoreOf(cards), cards).Failure?
    ensures forall n :: !StopsAt(cards, maxDamage, n)
  {
    assert cards[..|cards|] == cards;
  }

  /** When the loop goes on after `k` cards, it stops at or after `k` exactly
      when it stops after `k`. */
  lemma StopsLater(maxDamage: int32, cards: seq<Card>, k: nat)
    requires k < |cards| && Continues(ScoreOf(cards[..k]), maxDamage)
    ensures (exists n :: k <= n && StopsAt(cards, maxDamage, n))
            <==> (exists n :: k + 1 <= n && StopsAt(cards, maxDamage, n))
  {
    if exists n :: k <= n && StopsAt(cards, maxDamage, n) {
      var n :| k <= n && StopsAt(cards, maxDamage, n);
      assert n != k;
    }
  }

  lemma {:induction false} PlayLoopSpec(maxDamage: int32, cards: seq<Card>, k: nat)
    requires k <= |cards|
    requires forall j :: 0 <= j < k ==> Continues(ScoreOf(cards[..j]), maxDamage)
    ensures var r := PlayLoop(maxDamage, Deck(cards[k..]), ScoreOf(cards[..k]), cards[..k]);
            && (r.Success? <==> exists n :: k <= n && StopsAt(cards, maxDamage, n))
            && (r.Success? ==> IsPlayOf(cards, maxDamage, r.value))
    decreases |cards| - k
  {
    var score := ScoreOf(cards[..k]);
    if !Continues(score, maxDamage) {
      PlayLoopStops(maxDamage, cards, k);
    } else if k == |cards| {
      PlayLoopRunsOut(maxDamage, cards);
    } else {
      PlayLoopStep(maxDamage, cards, k);
      forall j | 0 <= j < k + 1 ensures Continues(ScoreOf(cards[..j]), maxDamage) {
        if j == k {
          assert Continues(score, maxDamage);
        }
      }
      PlayLoopSpec(maxDamage, cards, k + 1);
      StopsLater(maxDamage, cards, k);
    }
  }

  /** `play` succeeds exactly when some prefix of the deck (possibly all of it)
      brings the loop to a stop, and then returns the outcome `IsPlayOf`
      describes. */
  lemma PlaySpec(g: Game)
    ensures Play(g).Success? <==> exists n :: StopsAt(g.deck.cards, g.maxDamage, n)
    ensures Play(g).Success? ==> IsPlayOf(g.deck.cards, g.maxDamage, Play(g).value)
  {
    var cards := g.deck.cards;
    assert cards[0..] == cards && cards[..0] == [];
    PlayLoopSpec(g.maxDamage, cards, 0);
  }

  /** The sum of standard cards lies between two and eleven points per card. */
  lemma {:induction false} StandardSumBounds(cards: seq<Card>)
    requires forall i :: 0 <= i < |cards| ==> IsStandard(cards[i])
    ensures 2 * |cards| <= Sum(cards) <= 11 * |cards|
    decreases |cards|
  {
    if |cards| > 0 {
      StandardSumBounds(cards[..|cards| - 1]);
    }
  }

  /** Fifty-two cards, each worth what its name is worth in a standard deck. */
  predicate StandardValued(cards: seq<Card>) {
    |cards| == 52 && forall i :: 0 <= i < |cards| ==> IsStandard(cards[i])
  }

  /** On any arrangement of the standard deck the running score never wraps. */
  lemma StandardScores(cards: seq<Card>, n: nat)
    requires StandardValued(cards) && n <= 52
    ensures ScoreOf(cards[..n]) == Sum(cards[..n])
    ensures 2 * n <= ScoreOf(cards[..n]) <= 11 * n
  {
    StandardSumBounds(cards[..n]);
    ScoreIsWrappedSum(cards[..n]);
  }

  /** Any arrangement of the standard deck has 52 standard cards. */
  lemma StandardArrangement(cards: seq<Card>)
    requires multiset(cards) == multiset(Standard().cards)
    ensures StandardValued(cards)
  {
    StandardShape();
    StandardContents();
    assert |multiset(cards)| == |multiset(Standard().cards)|;
    forall i | 0 <= i < |cards| ensures IsStandard(cards[i]) {
      assert cards[i] in multiset(cards);
    }
  }

  /** Where a play of a standard arrangement stops, the score is at most 31:
      the score before the last draw was below 21 and no card is worth more
      than 11. The damage then never exceeds a non-negative `maxDamage`. */
  lemma StandardFinalScore(cards: seq<Card>, maxDamage: int32, o: Outcome)
    requires StandardValued(cards)
    requires IsPlayOf(cards, maxDamage, o)
    ensures o.score == Sum(o.drawn) <= MAX_SCORE + 10
    ensures 0 <= maxDamage ==> 0 <= o.damageDone <= maxDamage
  {
    var n := |o.drawn|;
    StandardScores(cards, n);
    if n > 0 {
      var prev := cards[..n - 1];
      StandardScores(cards, n - 1);
      assert Continues(ScoreOf(prev), maxDamage);
      assert cards[..n][..n - 1] == prev;
      assert Sum(cards[..n]) == Sum(prev) + cards[n - 1].value;
    }
    if 0 <= maxDamage {
      DamageWindow(o.score, maxDamage);
    }
  }

  /** Drawing the whole standard deck always brings the loop to a stop. */
  lemma StandardStops(cards: seq<Card>, maxDamage: int32)
    requires StandardValued(cards)
    ensures StopsAt(cards, maxDamage, 52)
  {
    StandardScores(cards, 52);
    assert cards[..52] == cards;
  }

  /** Playing 52 standard-valued cards never draws from an empty deck: together
      they are worth far more than 21. The final score is the plain sum of the
      drawn cards, at most 31 (a score of 20 plus an Ace), and the damage never
      exceeds a non-negative `maxDamage`. */
  lemma PlayStandardValued(g: Game)
    requires StandardValued(g.deck.cards)
    ensures Play(g).Success?
    ensures Play(g).value.score == Sum(Play(g).value.drawn) <= MAX_SCORE + 10
    ensures 0 <= g.maxDamage ==> 0 <= Play(g).value.damageDone <= g.maxDamage
  {
    var cards := g.deck.cards;
    var r := Play(g);
    assert r.Success? && IsPlayOf(cards, g.maxDamage, r.value) by {
      PlaySpec(g);
      StandardStops(cards, g.maxDamage);
    }
    StandardFinalScore(cards, g.maxDamage, r.value);
  }

  /** Playing any shuffle of the standard deck never draws from an empty deck,
      ends with a score of at most 31 that is the plain sum of the drawn cards,
      and does at most a non-negative `maxDamage`. */
  lemma PlayStandard(g: Game)
    requires multiset(g.deck.cards) == multiset(Standard().cards)
    ensures Play(g).Success?
    ensures Play(g).value.score == Sum(Play(g).value.drawn) <= MAX_SCORE + 10
    ensures 0 <= g.maxDamage ==> 0 <= Play(g).value.damageDone <= g.maxDamage
  {
    StandardArrangement(g.deck.cards);
    PlayStandardValued(g);
  }

  /** The deck `10, 5, 3, 9` of spades used by the scenarios below. */
  function ScenarioDeck(): Deck {
    Of([Number(Spades, 10), Number(Spades, 5), Number(Spades, 3), Number(Spades, 9)])
  }

  /** With `maxDamage` 5 the game stands at 18, where stopping already does 2
      damage, after drawing 10, 5 and 3. */
  lemma SticksWhenDamageIsReachable()
    ensures Play(Game(5, ScenarioDeck())) == Success(Outcome(2, 18, ScenarioDeck().cards[..3]))
  {
    var cards := ScenarioDeck().cards;
    var g := Game(5, ScenarioDeck());
    PlaySpec(g);
    ScoreSteps(cards);
    assert StopsAt(cards, 5, 3);
    assert IsPlayOf(cards, 5, Outcome(2, 18, cards[..3])) by {
      assert Continues(0, 5) && Continues(10, 5) && Continues(15, 5);
      forall j | 0 <= j < 3 ensures Continues(ScoreOf(cards[..j]), 5) {
        assert j == 0 || j == 1 || j == 2;
      }
    }
    PlayOfUnique(cards, 5, Play(g).value, Outcome(2, 18, cards[..3]));
  }

  /** With `maxDamage` 2 a score of 18 still does no damage, so the game draws
      the 9 as well and busts at 27 for no damage. */
  lemma TwistsAndBustsWhenNoDamageIsReachable()
    ensures Play(Game(2, ScenarioDeck())) == Success(Outcome(0, 27, ScenarioDeck().cards))
  {
    var cards := ScenarioDeck().cards;
    var g := Game(2, ScenarioDeck());
    PlaySpec(g);
    ScoreSteps(cards);
    assert StopsAt(cards, 2, 4);
    assert IsPlayOf(cards, 2, Outcome(0, 27, cards)) by {
      assert Continues(0, 2) && Continues(10, 2) && Continues(15, 2) && Continues(18, 2);
      forall j | 0 <= j < 4 ensures Continues(ScoreOf(cards[..j]), 2) {
        assert j == 0 || j == 1 || j == 2 || j == 3;
      }
    }
    PlayOfUnique(cards, 2, Play(g).value, Outcome(0, 27, cards));
  }

  /** The running scores of the scenario deck: 0, 10, 15, 18, 27. */
  lemma ScoreSteps(cards: seq<Card>)
    requires cards == ScenarioDeck().cards
    ensures ScoreOf(cards[..0]) == 0 && ScoreOf(cards[..1]) == 10
    ensures ScoreOf(cards[..2]) == 15 && ScoreOf(cards[..3]) == 18
    ensures ScoreOf(cards[..4]) == 27 && cards[..4] == cards
  {
    assert cards[..1][..0] == cards[..0];
    assert cards[..2][..1] == cards[..1];
    assert cards[..3][..2] == cards[..2];
    assert cards[..4][..3] == cards[..3];
  }
}
