/** `DamageProbabilities.main` without its printing: play one freshly shuffled
    game per trial and tally the damage each one did. The shuffles' random
    answers are a parameter, one sequence per trial. */
module Driver {
  import opened JavaInt
  import opened Cards
  import opened Decks
  import opened Shuffling
  import opened Games
  import opened Tallies

  /** Shuffling keeps a deck of 52 standard-valued cards one. */
  lemma ShuffleKeepsStandardValued(base: Deck, rolls: seq<nat>)
    requires StandardValued(base.cards) && ValidRolls(rolls, 52)
    ensures StandardValued(Shuffle(base, rolls).cards)
  {
    var cards := Shuffle(base, rolls).cards;
    forall i | 0 <= i < |cards| ensures IsStandard(cards[i]) {
      assert cards[i] in multiset(base.cards) by {
        assert cards[i] in multiset(cards);
      }
    }
  }

  /** The damage the play of `base` shuffled with `rolls` does; for a deck of
      standard-valued cards such a play never runs out of cards. */
  predicate IsTrialDamage(weaponMaxDamage: int32, base: Deck, rolls: seq<nat>, damage: int)
    requires ValidRolls(rolls, |base.cards|)
  {
    var r := Play(Game(weaponMaxDamage, Shuffle(base, rolls)));
    r.Success? && damage == r.value.damageDone
  }

  /** One trial: `Game.standard(weaponMaxDamage).play().damageDone()`, with the
      deck to shuffle given as `base`. */
  method PlayTrial(weaponMaxDamage: int32, base: Deck, rolls: seq<nat>) returns (damage: int32)
    requires StandardValued(base.cards) && ValidRolls(rolls, 52)
    ensures IsTrialDamage(weaponMaxDamage, base, rolls, damage)
    ensures 0 <= weaponMaxDamage ==> 0 <= damage <= weaponMaxDamage
  {
    var g := Game(weaponMaxDamage, Shuffle(base, rolls));
    ShuffleKeepsStandardValued(base, rolls);
    PlayStandardValued(g);
    damage := Play(g).value.damageDone;
  }

  /** The trials of `main`'s loop: `damages` are the trials' damages in trial
      order. */
  method RunTrials(weaponMaxDamage: int32, base: Deck, trials: seq<seq<nat>>) returns (damages: seq<int>)
    requires StandardValued(base.cards)
    requires forall i :: 0 <= i < |trials| ==> ValidRolls(trials[i], 52)
    ensures |damages| == |trials|
    ensures forall i :: 0 <= i < |trials| ==> IsTrialDamage(weaponMaxDamage, base, trials[i], damages[i])
  {
    damages := [];
    var i := 0;
    while i < |trials|
      invariant 0 <= i <= |trials| && |damages| == i
      invariant forall j :: 0 <= j < i ==> IsTrialDamage(weaponMaxDamage, base, trials[j], damages[j])
    {
      var damage := PlayTrial(weaponMaxDamage, base, trials[i]);
      ExtendTrials(weaponMaxDamage, base, trials, damages, damage);
      damages := damages + [damage];
      i := i + 1;
    }
  }

  lemma ExtendTrials(weaponMaxDamage: int32, base: Deck, trials: seq<seq<nat>>, damages: seq<int>, damage: int)
    requires StandardValued(base.cards)
    requires forall i :: 0 <= i < |trials| ==> ValidRolls(trials[i], 52)
    requires |damages| < |trials|
    requires forall j :: 0 <= j < |damages| ==> IsTrialDamage(weaponMaxDamage, base, trials[j], damages[j])
    requires IsTrialDamage(weaponMaxDamage, base, trials[|damages|], damage)
    ensures forall j :: 0 <= j <= |damages| ==> IsTrialDamage(weaponMaxDamage, base, trials[j], (damages + [damage])[j])
  {
    forall j | 0 <= j <= |damages|
      ensures IsTrialDamage(weaponMaxDamage, base, trials[j], (damages + [damage])[j])
    {
      if j < |damages| {
        assert (damages + [damage])[j] == damages[j];
      }
    }
  }

  /** Every trial's damage lies between 0 and a non-negative weapon maximum. */
  lemma TrialsBounded(weaponMaxDamage: int32, base: Deck, trials: seq<seq<nat>>, damages: seq<int>)
    requires StandardValued(base.cards)
    requires forall i :: 0 <= i < |trials| ==> ValidRolls(trials[i], 52)
    requires |damages| == |trials|
    requires forall i :: 0 <= i < |trials| ==> IsTrialDamage(weaponMaxDamage, base, trials[i], damages[i])
    ensures 0 <= weaponMaxDamage ==> forall j :: 0 <= j < |damages| ==> 0 <= damages[j] <= weaponMaxDamage
  {
    forall j | 0 <= j < |damages| ensures 0 <= weaponMaxDamage ==> 0 <= damages[j] <= weaponMaxDamage {
      TrialDamageBounds(weaponMaxDamage, base, trials[j], damages[j]);
    }
  }

  /** A trial's damage never exceeds the weapon maximum nor drops below 0. */
  lemma TrialDamageBounds(weaponMaxDamage: int32, base: Deck, rolls: seq<nat>, damage: int)
    requires StandardValued(base.cards) && ValidRolls(rolls, 52)
    requires IsTrialDamage(weaponMaxDamage, base, rolls, damage)
    ensures 0 <= weaponMaxDamage ==> 0 <= damage <= weaponMaxDamage
  {
    ShuffleKeepsStandardValued(base, rolls);
    PlayStandardValued(Game(weaponMaxDamage, Shuffle(base, rolls)));
  }

  /** The tallying half of `main`'s loop: one `compute` per damage, in order. */
  method TallyAll(damages: seq<int>) returns (table: Table)
    ensures table == Tally(damages)
    ensures table.Keys == set d | d in damages
    ensures forall k :: k in table ==> table[k] == multiset(damages)[k]
    ensures SumCounts(table) == |damages|
  {
    table := map[];
    var i := 0;
    while i < |damages|
      invariant 0 <= i <= |damages|
      invariant table == Tally(damages[..i])
    {
      TallyExtend(damages[..i], damages[i]);
      assert damages[..i + 1] == damages[..i] + [damages[i]];
      table := Record(table, damages[i]);
      i := i + 1;
    }
    assert damages[..i] == damages;
    TallyCounts(damages);
    TallySum(damages);
  }

  /** `main`'s trial loop: play every trial and tally the damages. The table's
      counts add up to the number of trials, every count lies between 1 and
      the number of trials, and with a non-negative weapon maximum every
      recorded damage lies between 0 and that maximum. */
  method Simulate(weaponMaxDamage: int32, base: Deck, trials: seq<seq<nat>>) returns (table: Table, damages: seq<int>)
    requires StandardValued(base.cards)
    requires forall i :: 0 <= i < |trials| ==> ValidRolls(trials[i], 52)
    ensures |damages| == |trials|
    ensures forall i :: 0 <= i < |trials| ==> IsTrialDamage(weaponMaxDamage, base, trials[i], damages[i])
    ensures table == Tally(damages)
    ensures SumCounts(table) == |trials|
    ensures forall k :: k in table ==> 1 <= table[k] <= |trials|
    ensures 0 <= weaponMaxDamage ==> forall k :: k in table ==> 0 <= k <= weaponMaxDamage
  {
    damages := RunTrials(weaponMaxDamage, base, trials);
    table := TallyAll(damages);
    TrialsBounded(weaponMaxDamage, base, trials, damages);
    TableFacts(weaponMaxDamage, damages);
  }

  /** What the tally of the trials' damages says about them. */
  lemma TableFacts(weaponMaxDamage: int32, damages: seq<int>)
    requires 0 <= weaponMaxDamage ==> forall j :: 0 <= j < |damages| ==> 0 <= damages[j] <= weaponMaxDamage
    ensures SumCounts(Tally(damages)) == |damages|
    ensures forall k :: k in Tally(damages) ==> 1 <= Tally(damages)[k] <= |damages|
    ensures 0 <= weaponMaxDamage ==> forall k :: k in Tally(damages) ==> 0 <= k <= weaponMaxDamage
  {
    TallyCounts(damages);
    TallySum(damages);
    TallyBounds(damages);
  }

  /** The standard deck qualifies as the deck every trial shuffles. */
  lemma StandardIsStandardValued()
    ensures StandardValued(Standard().cards)
  {
    StandardShape();
    StandardContents();
  }
}
