/** The frequency table the simulation driver keeps: damage value to the number
    of trials that did that damage (`HashMap<Integer, Integer>` updated with
    `compute`). */
module Tallies {

  type Table = map<int, nat>

  /** `damageDone.compute(damage, (k, v) -> v == null ? 1 : v + 1)`: an absent
      damage value enters with count 1, a present one goes up by one, and no
      other entry changes. */
  function Record(table: Table, damage: int): (t: Table)
    ensures t.Keys == table.Keys + {damage}
    ensures damage !in table ==> t[damage] == 1
    ensures damage in table ==> t[damage] == table[damage] + 1
    ensures forall k :: k in table && k != damage ==> t[k] == table[k]
  {
    table[damage := if damage in table then table[damage] + 1 else 1]
  }

  /** The table after recording `damages` in order, starting from an empty map. */
  function Tally(damages: seq<int>): Table {
    if |damages| == 0 then map[]
    else Record(Tally(damages[..|damages| - 1]), damages[|damages| - 1])
  }

  lemma TallyExtend(damages: seq<int>, damage: int)
    ensures Tally(damages + [damage]) == Record(Tally(damages), damage)
  {
    assert (damages + [damage])[..|damages|] == damages;
  }

  ghost function PickKey(t: Table): int
    requires t.Keys != {}
  {
    assert exists k :: k in t.Keys by {
      if forall k :: k !in t.Keys {
        assert false;
      }
    }
    var k :| k in t.Keys; k
  }

  /** The sum of all counts in a table. */
  ghost function SumCounts(t: Table): nat
    decreases |t.Keys|
  {
    if t.Keys == {} then 0
    else
      var k := PickKey(t);
      assert (t - {k}).Keys == t.Keys - {k};
      t[k] + SumCounts(t - {k})
  }

  lemma RemoveKeySize(t: Table, k: int)
    requires k in t
    ensures |(t - {k}).Keys| == |t.Keys| - 1
  {
    assert (t - {k}).Keys == t.Keys - {k};
  }

  /** The sum does not depend on which key it takes out first. */
  lemma {:induction false} SumCountsRemove(t: Table, k: int)
    requires k in t
    ensures SumCounts(t) == t[k] + SumCounts(t - {k})
    decreases |t.Keys|
  {
    var j := PickKey(t);
    if j != k {
      RemoveKeySize(t, j);
      RemoveKeySize(t, k);
      SumCountsRemove(t - {j}, k);
      SumCountsRemove(t - {k}, j);
      assert (t - {j}) - {k} == (t - {k}) - {j};
    }
  }

  /** Recording one result adds exactly one to the sum of the counts. */
  lemma RecordAddsOne(table: Table, damage: int)
    ensures SumCounts(Record(table, damage)) == SumCounts(table) + 1
  {
    var t := Record(table, damage);
    SumCountsRemove(t, damage);
    if damage in table {
      SumCountsRemove(table, damage);
      assert t - {damage} == table - {damage};
    } else {
      assert t - {damage} == table;
    }
  }

  /** After recording `damages`, a value is a key exactly when it occurred and
      its count is the number of times it occurred. */
  lemma {:induction false} TallyCounts(damages: seq<int>)
    ensures Tally(damages).Keys == set d | d in damages
    ensures forall k :: k in Tally(damages) ==> Tally(damages)[k] == multiset(damages)[k]
    decreases |damages|
  {
    if |damages| > 0 {
      var init, last := damages[..|damages| - 1], damages[|damages| - 1];
      assert damages == init + [last];
      TallyCounts(init);
      assert (set d | d in damages) == (set d | d in init) + {last};
      assert multiset(damages) == multiset(init) + multiset{last};
    }
  }

  /** After recording `damages` the counts add up to the number of results
      recorded. */
  lemma {:induction false} TallySum(damages: seq<int>)
    ensures SumCounts(Tally(damages)) == |damages|
    decreases |damages|
  {
    if |damages| > 0 {
      var init := damages[..|damages| - 1];
      TallySum(init);
      RecordAddsOne(Tally(init), damages[|damages| - 1]);
    }
  }

  /** Every count is at least one and at most the number of results, so each
      count divided by the number of results lies between 0 and 1. */
  lemma TallyBounds(damages: seq<int>)
    ensures forall k :: k in Tally(damages) ==> 1 <= Tally(damages)[k] <= |damages|
  {
    TallyCounts(damages);
    forall k | k in Tally(damages) ensures 1 <= Tally(damages)[k] <= |damages| {
      assert k in damages;
      assert multiset(damages)[k] <= |multiset(damages)|;
    }
  }
}
