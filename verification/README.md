# Damage probabilities: a Dafny model of the card game

The damage-probabilities program estimates how much damage a weapon does in a
card mini-game. A standard 52-card deck is shuffled. Cards are drawn one at a
time and their values added to a running score. The drawing stops as soon as
either:

- the score reaches the ceiling of 21, or
- stopping would already do some damage.

The damage done at a final score is `score - 21 + maxDamage`, clamped at zero.
A score above 21 is a bust and does no damage. The driver plays many such
games and keeps a table from damage value to the number of games that did it.

The model covers the `Game` class (suits, cards, the deck, shuffling, drawing,
the play loop and the damage rule) and the trial-and-tally loop of
`DamageProbabilities.main`. Modules:

- `JavaInt` (`java_int.dfy`): Java's 32-bit `int`, with wrap-around `+` and `-`.
- `Results` (`results.dfy`): a success-or-failure result, used for the exception
  that popping an empty `ArrayDeque` throws.
- `Cards` (`cards.dfy`): `Suit`, `Card`, `Card.number`, the values a standard
  card carries, and suit counting.
- `Decks` (`decks.dfy`): the deck as a stack (`cards[0]` is the top), `draw`,
  `of`, `standard`, and repeated draws.
- `Shuffling` (`shuffling.dfy`): `Deck.shuffle`, which pops every card, shuffles
  them with the JDK's `Collections.shuffle`, and pushes them back. The random
  answers are a parameter.
- `Games` (`games.dfy`): `MAX_SCORE`, `getAppliedDamage`, `play`, `Game.standard`,
  and the two scenarios of the unit tests.
- `Tallies` (`tallies.dfy`): the frequency table and its `compute` update.
- `Driver` (`driver.dfy`): the trial loop of `main`, given the random answers
  for every trial.

Several contracts use independent reference definitions:

- `play` is described without its loop (`Games.IsPlayOf`, `Games.StopsAt`). The
  recursive loop is proved to meet that description, and at most one outcome
  meets it.
- Shuffling is proved to preserve the cards. Every order of the cards is
  produced by some sequence of `nextInt` answers. `java.util.Random` itself
  cannot produce all 52! orders of a full deck, because it has only 48 bits
  of state.
- The tally is related to the multiset of damages that were recorded.

Java `int` arithmetic is modelled exactly. The running score and
`score - MAX_SCORE + maxDamage` wrap on overflow. Lemmas show that the running
score never wraps on any arrangement of the standard deck. For a score
between 0 and 21, which covers every score a standard arrangement reaches
before it stops, the damage expression wraps only when `maxDamage` is below
`Integer.MIN_VALUE + 21`. A deck built with `Deck.of` from extreme card values
can bring the score itself near `Integer.MIN_VALUE`. There `score - 21` wraps
on its own, and the model follows Java's wrapped result. With
`maxDamage` equal to `Integer.MIN_VALUE`, `play` draws nothing and reports a
damage of 2147483627.

## Model

Source paths are relative to the repository root.

| member | source | states |
|---|---|---|
| JavaInt.Wrap | support/programs/damage-probabilities/src/org/lodenstone/armada/damageprobabilities/Game.java:78 | the Java `int` a sum wraps to is the sum itself when it is in range, and is always congruent to it modulo 2^32 |
| JavaInt.WrapAddWrap | support/programs/damage-probabilities/src/org/lodenstone/armada/damageprobabilities/Game.java:78 | wrapping after every addition gives the same `int` as wrapping the exact sum once |
| Cards.Number | support/programs/damage-probabilities/src/org/lodenstone/armada/damageprobabilities/Game.java:10-12 | `Card.number(suit, n)` has the given suit, value `n`, and the number `n` as its name |
| Cards.CountSuitPermutation | support/programs/damage-probabilities/test/org/lodenstone/armada/damageprobabilities/GameUnitTest.java:18-21 | any rearrangement of cards has the same number of cards of each suit |
| Cards.AllSuitsOccur | support/programs/damage-probabilities/test/org/lodenstone/armada/damageprobabilities/GameUnitTest.java:26 | when every suit is counted at least once, the set of suits that occur is exactly the four suits |
| Decks.Of | support/programs/damage-probabilities/src/org/lodenstone/armada/damageprobabilities/Game.java:49-51 | `Deck.of(c1, ..., cn)`: the cards in order, `c1` on top; its contract is `Decks.DrawOf` and `Decks.DrawN` |
| Decks.Draw | support/programs/damage-probabilities/src/org/lodenstone/armada/damageprobabilities/Game.java:31-33 | `draw` fails with `EmptyDeck` exactly when the deck is empty; otherwise pushing the drawn card back onto the rest gives the deck it was drawn from, one card larger |
| Decks.DrawAfterPush | support/programs/damage-probabilities/src/org/lodenstone/armada/damageprobabilities/Game.java:28-33 | a draw returns the card pushed last and leaves the deck under it unchanged |
| Decks.DrawOf | support/programs/damage-probabilities/src/org/lodenstone/armada/damageprobabilities/Game.java:49-51 | the first draw from `Deck.of(c1, ..., cn)` returns `c1` and leaves `Deck.of(c2, ..., cn)` |
| Decks.DrawN | support/programs/damage-probabilities/test/org/lodenstone/armada/damageprobabilities/GameUnitTest.java:18-21 | `n` draws in a row succeed exactly when the deck holds at least `n` cards; they return its top `n` cards in order and leave the rest |
| Decks.Standard | support/programs/damage-probabilities/src/org/lodenstone/armada/damageprobabilities/Game.java:35-47 | `Deck.standard()`, suit-major and rank-ascending; its contracts are `Decks.StandardShape`, `Decks.StandardContents` and `Decks.StandardDistinct` |
| Decks.StandardCardsIndex | support/programs/damage-probabilities/src/org/lodenstone/armada/damageprobabilities/Game.java:37-45 | the suit-major construction has 13 cards per suit, and card `i` is card `i % 13` of suit number `i / 13` |
| Decks.SuitCardsFacts | support/programs/damage-probabilities/src/org/lodenstone/armada/damageprobabilities/Game.java:38-44 | one suit's pass adds 13 cards of that suit, all carrying their standard value and pairwise different |
| Decks.SuitCardsComplete | support/programs/damage-probabilities/src/org/lodenstone/armada/damageprobabilities/Game.java:38-44 | every standard card of a suit is among the cards that suit's pass adds |
| Decks.StandardSuitCount | support/programs/damage-probabilities/src/org/lodenstone/armada/damageprobabilities/Game.java:35-47 | `Deck.standard()` holds thirteen cards of each suit |
| Decks.StandardShape | support/programs/damage-probabilities/src/org/lodenstone/armada/damageprobabilities/Game.java:35-47 | `Deck.standard()` holds 52 cards, 13 of every suit, and the suits occurring are exactly the four |
| Decks.StandardContents | support/programs/damage-probabilities/src/org/lodenstone/armada/damageprobabilities/Game.java:35-47 | a card is in `Deck.standard()` if and only if it carries the value its name gives it: 2–10 for numbers, 10 for Jack, Queen and King, 11 for the Ace |
| Decks.StandardDistinct | support/programs/damage-probabilities/src/org/lodenstone/armada/damageprobabilities/Game.java:35-47 | no card occurs twice in `Deck.standard()` |
| Shuffling.ShuffleList | support/programs/damage-probabilities/src/org/lodenstone/armada/damageprobabilities/Game.java:27 | the swap loop of `Collections.shuffle` keeps the list's length and multiset and leaves positions it has not reached untouched |
| Shuffling.PushAll | support/programs/damage-probabilities/src/org/lodenstone/armada/damageprobabilities/Game.java:28 | `list.forEach(cards::push)`; its contract is `Shuffling.PushAllReverses` |
| Shuffling.PushAllReverses | support/programs/damage-probabilities/src/org/lodenstone/armada/damageprobabilities/Game.java:28 | pushing a list card by card puts it on the deck in reverse order |
| Shuffling.Shuffle | support/programs/damage-probabilities/src/org/lodenstone/armada/damageprobabilities/Game.java:22-29 | `shuffle` keeps the number of cards and the multiset of cards |
| Shuffling.RollsFor | support/programs/damage-probabilities/src/org/lodenstone/armada/damageprobabilities/Game.java:27 | every rearrangement of the list is produced by some valid answers of the random source |
| Shuffling.ShuffleReachesEveryPermutation | support/programs/damage-probabilities/src/org/lodenstone/armada/damageprobabilities/Game.java:22-29 | every order of the deck's cards is the result of `shuffle` for some valid random answers |
| Shuffling.DrawsBySuit | support/programs/damage-probabilities/test/org/lodenstone/armada/damageprobabilities/GameUnitTest.java:14-27 | drawing all cards of any rearrangement of a 52-card deck with 13 per suit succeeds and yields 13 of each suit and all four suits |
| Shuffling.ShuffledStandardDraws | support/programs/damage-probabilities/test/org/lodenstone/armada/damageprobabilities/GameUnitTest.java:14-27 | after any shuffle of `Deck.standard()`, 52 draws succeed, return every standard card exactly as often as the unshuffled deck holds it, 13 per suit, and all four suits |
| Games.AppliedDamage | support/programs/damage-probabilities/src/org/lodenstone/armada/damageprobabilities/Game.java:83-88 | the damage is never negative; it is 0 above 21; at or below 21 it is the larger of 0 and the `int`-wrapped `score - 21 + maxDamage`, which is the plain value whenever that fits in an `int` |
| Games.DamageAtCeiling | support/programs/damage-probabilities/src/org/lodenstone/armada/damageprobabilities/Game.java:83-88 | stopping on exactly 21 does the full `maxDamage`, or nothing when it is negative |
| Games.DamageWrap | support/programs/damage-probabilities/src/org/lodenstone/armada/damageprobabilities/Game.java:87 | for a score between 0 and 21, the damage is the plain `max(0, score - 21 + maxDamage)` when `maxDamage >= Integer.MIN_VALUE + 21`; when `maxDamage < Integer.MIN_VALUE + 21 - score` the expression wraps to the positive `score - 21 + maxDamage + 2^32` |
| Games.PlayWithMinimalMaxDamage | support/programs/damage-probabilities/src/org/lodenstone/armada/damageprobabilities/Game.java:72-88 | with `maxDamage` equal to `Integer.MIN_VALUE`, `play` on any deck draws no card and returns score 0 and damage 2147483627 |
| Games.DamageWindow | support/programs/damage-probabilities/src/org/lodenstone/armada/damageprobabilities/Game.java:83-88 | for a non-negative score and `maxDamage`, damage is done exactly when `21 - maxDamage < score <= 21`, and it never exceeds `maxDamage` |
| Games.ScoreOf | support/programs/damage-probabilities/src/org/lodenstone/armada/damageprobabilities/Game.java:73-78 | the running score `score += card.value()` from 0 over the drawn cards; its contract is `Games.ScoreIsWrappedSum` |
| Games.ScoreIsWrappedSum | support/programs/damage-probabilities/src/org/lodenstone/armada/damageprobabilities/Game.java:73-79 | the running score equals the `int`-wrapped sum of the drawn values, and the plain sum when that fits in an `int` |
| Games.StandardGame | support/programs/damage-probabilities/src/org/lodenstone/armada/damageprobabilities/Game.java:61-65 | `Game.standard(maxDamage)` keeps `maxDamage` and owns a rearrangement of the standard deck |
| Games.PlayLoop | support/programs/damage-probabilities/src/org/lodenstone/armada/damageprobabilities/Game.java:75-79 | the `while` loop of `play()`; its contracts are `Games.PlayLoopStep`, `Games.PlayLoopStops`, `Games.PlayLoopRunsOut` and `Games.PlayLoopSpec` |
| Games.Play | support/programs/damage-probabilities/src/org/lodenstone/armada/damageprobabilities/Game.java:72-81 | `Game.play()`; its contract is `Games.PlaySpec`, with uniqueness from `Games.PlayOfUnique` |
| Games.PlayOfUnique | support/programs/damage-probabilities/src/org/lodenstone/armada/damageprobabilities/Game.java:72-81 | at most one outcome fits the loop-free description of a play, so the result of `play` is fixed by the deck and `maxDamage` |
| Games.PlayLoopStep | support/programs/damage-probabilities/src/org/lodenstone/armada/damageprobabilities/Game.java:75-79 | one turn of the loop draws the next card, adds its value to the score and appends it to the drawn cards |
| Games.PlayLoopStops | support/programs/damage-probabilities/src/org/lodenstone/armada/damageprobabilities/Game.java:75-80 | where the loop condition fails the loop returns at once, with the damage at the current score, the score and the cards drawn |
| Games.PlayLoopRunsOut | support/programs/damage-probabilities/src/org/lodenstone/armada/damageprobabilities/Game.java:75-76 | when the condition still holds after the last card, the next draw fails and no prefix of the deck stops the loop |
| Games.StopsLater | support/programs/damage-probabilities/src/org/lodenstone/armada/damageprobabilities/Game.java:75 | when the loop goes on after `k` cards, it stops at or after `k` exactly when it stops after `k` |
| Games.PlayLoopSpec | support/programs/damage-probabilities/src/org/lodenstone/armada/damageprobabilities/Game.java:72-81 | from any state the loop has reached, it succeeds if and only if some later prefix stops it, and then it returns the outcome the loop-free description gives |
| Games.PlaySpec | support/programs/damage-probabilities/src/org/lodenstone/armada/damageprobabilities/Game.java:72-81 | `play` succeeds if and only if some prefix of the deck stops the loop. It then returns that prefix as the drawn cards, their running score, the damage at that score, and the loop condition fails there but held after every shorter prefix |
| Games.StandardSumBounds | support/programs/damage-probabilities/src/org/lodenstone/armada/damageprobabilities/Game.java:38-44 | standard cards add up to between 2 and 11 points per card |
| Games.StandardScores | support/programs/damage-probabilities/src/org/lodenstone/armada/damageprobabilities/Game.java:73-79 | on any 52 standard cards, the running score after `n` cards is their plain sum, between `2n` and `11n`, so no `int` wrap-around occurs |
| Games.StandardArrangement | support/programs/damage-probabilities/src/org/lodenstone/armada/damageprobabilities/Game.java:35-47 | any rearrangement of the standard deck has 52 cards, each carrying its standard value |
| Games.StandardFinalScore | support/programs/damage-probabilities/src/org/lodenstone/armada/damageprobabilities/Game.java:75-87 | where a play of 52 standard cards stops, the score is the plain sum of the drawn cards and at most 31, and the damage lies between 0 and a non-negative `maxDamage` |
| Games.StandardStops | support/programs/damage-probabilities/src/org/lodenstone/armada/damageprobabilities/Game.java:75 | the loop condition fails once all 52 standard cards are drawn |
| Games.PlayStandardValued | support/programs/damage-probabilities/src/org/lodenstone/armada/damageprobabilities/Game.java:72-88 | a play of 52 standard-valued cards never draws from an empty deck; its score is the plain sum of the drawn cards, at most 31; its damage lies between 0 and a non-negative `maxDamage` |
| Games.PlayStandard | support/programs/damage-probabilities/src/org/lodenstone/armada/damageprobabilities/Game.java:61-81 | playing any shuffle of the standard deck never draws from an empty deck; the final score is at most 31 and the damage at most a non-negative `maxDamage` |
| Games.ScoreSteps | support/programs/damage-probabilities/test/org/lodenstone/armada/damageprobabilities/GameUnitTest.java:31-36 | on the deck 10, 5, 3, 9 the running scores are 0, 10, 15, 18 and 27 |
| Games.SticksWhenDamageIsReachable | support/programs/damage-probabilities/test/org/lodenstone/armada/damageprobabilities/GameUnitTest.java:29-40 | with `maxDamage` 5 and the deck 10, 5, 3, 9, `play` stops after three cards with score 18 and damage 2 |
| Games.TwistsAndBustsWhenNoDamageIsReachable | support/programs/damage-probabilities/test/org/lodenstone/armada/damageprobabilities/GameUnitTest.java:42-53 | with `maxDamage` 2 and the same deck, `play` draws all four cards and busts with score 27 and damage 0 |
| Tallies.Record | support/programs/damage-probabilities/src/org/lodenstone/armada/damageprobabilities/DamageProbabilities.java:14 | `compute` adds the damage as a key; an absent damage enters with count 1 and a present one goes up by one; no other entry changes |
| Tallies.Tally | support/programs/damage-probabilities/src/org/lodenstone/armada/damageprobabilities/DamageProbabilities.java:12-14 | the table after one `compute` per damage from an empty `HashMap`; its contracts are `Tallies.TallyCounts`, `Tallies.TallySum` and `Tallies.TallyBounds` |
| Tallies.TallyExtend | support/programs/damage-probabilities/src/org/lodenstone/armada/damageprobabilities/DamageProbabilities.java:12-15 | tallying one more damage is one more `compute` on the table so far |
| Tallies.RecordAddsOne | support/programs/damage-probabilities/src/org/lodenstone/armada/damageprobabilities/DamageProbabilities.java:14 | each `compute` raises the sum of all counts by exactly one |
| Tallies.TallyCounts | support/programs/damage-probabilities/src/org/lodenstone/armada/damageprobabilities/DamageProbabilities.java:10-15 | the table's keys are exactly the damages that occurred, and each count is the number of times its damage occurred |
| Tallies.TallySum | support/programs/damage-probabilities/src/org/lodenstone/armada/damageprobabilities/DamageProbabilities.java:10-15 | the counts add up to the number of damages recorded |
| Tallies.TallyBounds | support/programs/damage-probabilities/src/org/lodenstone/armada/damageprobabilities/DamageProbabilities.java:10-16 | every count lies between 1 and the number of damages recorded, so each ratio `times / iterations` lies in (0, 1] |
| Driver.ShuffleKeepsStandardValued | support/programs/damage-probabilities/src/org/lodenstone/armada/damageprobabilities/Game.java:22-29 | shuffling 52 standard-valued cards leaves 52 standard-valued cards |
| Driver.PlayTrial | support/programs/damage-probabilities/src/org/lodenstone/armada/damageprobabilities/DamageProbabilities.java:13 | one trial returns the damage of a successful play of the shuffled deck; with a non-negative weapon maximum it lies between 0 and that maximum |
| Driver.TrialDamageBounds | support/programs/damage-probabilities/src/org/lodenstone/armada/damageprobabilities/DamageProbabilities.java:13 | any trial's damage lies between 0 and a non-negative weapon maximum |
| Driver.RunTrials | support/programs/damage-probabilities/src/org/lodenstone/armada/damageprobabilities/DamageProbabilities.java:12-13 | the trial loop returns one damage per trial, in trial order, each the damage of that trial's play |
| Driver.TrialsBounded | support/programs/damage-probabilities/src/org/lodenstone/armada/damageprobabilities/DamageProbabilities.java:12-13 | all trial damages lie between 0 and a non-negative weapon maximum |
| Driver.TallyAll | support/programs/damage-probabilities/src/org/lodenstone/armada/damageprobabilities/DamageProbabilities.java:12-14 | recording the damages one `compute` at a time gives a table whose keys are exactly the damages that occurred, whose counts are how often each occurred, and whose counts add up to the number of damages |
| Driver.TableFacts | support/programs/damage-probabilities/src/org/lodenstone/armada/damageprobabilities/DamageProbabilities.java:10-16 | the tally of bounded damages has counts adding up to the number of damages, each between 1 and that number, with keys between 0 and the weapon maximum |
| Driver.Simulate | support/programs/damage-probabilities/src/org/lodenstone/armada/damageprobabilities/DamageProbabilities.java:10-15 | after all trials the table is the tally of the trials' damages; its counts add up to the number of trials and each lies between 1 and that number; with a non-negative weapon maximum every key lies between 0 and that maximum |
| Driver.StandardIsStandardValued | support/programs/damage-probabilities/src/org/lodenstone/armada/damageprobabilities/Game.java:35-47 | the standard deck is 52 standard-valued cards, so it can serve as the base deck of every trial |

## Left out

- Randomness: `Collections.shuffle` draws from a shared `Random`. Here its
  answers to `nextInt(n)`, `nextInt(n - 1)`, ..., `nextInt(2)` are the parameter
  `rolls`. The uniform distribution of the permutation is not modelled. What is
  proved is that shuffling preserves the cards and that every order is
  produced by some sequence of answers. The 48-bit state of `java.util.Random`,
  which limits one shuffle of 52 cards to at most 2^48 of the 52! orders, is
  not modelled.
- `Collections.shuffle` is JDK code, not part of this repository. The model
  follows the JDK's in-place algorithm for random-access lists: swap position
  `i - 1` with `nextInt(i)` for `i` from the size down to 2.
- `synchronized` on `shuffle`: concurrency is out of scope. Each trial owns its
  deck.
- The printing in `main` (line 16): `printf` and the `float` division that gives
  the probability are left out. `Tallies.TallyBounds` states the counts that
  feed it. The printed value is rounded to two decimals, so a count below 0.5%
  of the iterations prints as `0.00`.
- The constants in `main`: `weaponMaxDamage = 10` and `iterations = 100000` are
  parameters of `Driver.Simulate`, and the number of trials is the number of
  random-answer sequences supplied. `Driver.Simulate` also takes the deck to
  shuffle as `base` and requires it to be 52 standard-valued cards, which
  `Driver.StandardIsStandardValued` shows `Deck.standard()` is.
- Tallies.Record: the count is an unbounded `nat`, so the `Integer` overflow of
  `v + 1` after 2^31 - 1 equal results is not modelled.
- Cards.Card: the `String name` of a card is a `Name` datatype (`Pip(n)`,
  `Jack`, `Queen`, `King`, `Ace`), which covers every name the program
  constructs. Arbitrary strings and `Integer.toString` are not modelled.
- The `Deck(Collection<Card>)` constructor appears only through `Deck.of` and
  `Deck.standard`, where the collection's iteration order is its list order
  (the first element is the top).
- Games.PlayLoop: an exception is a `Failure(EmptyDeck)` result that `play`
  passes on unchanged, not a thrown `NoSuchElementException`.
- Games.Play: the deck that `play` drains is not returned. A second `play()`
  on one `Game`, or a caller reusing the `Deck` it passed to `new Game(...)`,
  would see only the cards left; the program never does either, so this is not
  modelled.
- Games.Game: the constructor is the datatype constructor; it stores its two
  arguments and does nothing else.
