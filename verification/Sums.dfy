/** Sums over the values of a finite map, for any number of keys. A missing key counts as 0,
    as `unwrap_or(0)` makes it in the contracts. */
module Sums {

  function Get<K>(m: map<K, int>, k: K): int {
    if k in m then m[k] else 0
  }

  ghost function SumOver<K>(keys: set<K>, m: map<K, int>): int {
    if keys == {} then 0
    else
      var k :| k in keys;
      Get(m, k) + SumOver(keys - {k}, m)
  }

  ghost function Total<K>(m: map<K, int>): int {
    SumOver(m.Keys, m)
  }

  ghost predicate NonNegative<K>(m: map<K, int>) {
    forall k | k in m :: 0 <= m[k]
  }

  /** The sum does not depend on the order in which keys are taken. */
  lemma {:induction false} SumSplit<K>(keys: set<K>, m: map<K, int>, k: K)
    requires k in keys
    ensures SumOver(keys, m) == Get(m, k) + SumOver(keys - {k}, m)
    decreases |keys|
  {
    var j :| j in keys && SumOver(keys, m) == Get(m, j) + SumOver(keys - {j}, m);
    if j != k {
      SumSplit(keys - {j}, m, k);
      SumSplit(keys - {k}, m, j);
      assert keys - {j} - {k} == keys - {k} - {j};
    }
  }

  lemma {:induction false} SumFrame<K>(keys: set<K>, m: map<K, int>, m': map<K, int>)
    requires forall k | k in keys :: Get(m, k) == Get(m', k)
    ensures SumOver(keys, m) == SumOver(keys, m')
    decreases |keys|
  {
    if keys != {} {
      var k :| k in keys;
      SumSplit(keys, m, k);
      SumSplit(keys, m', k);
      SumFrame(keys - {k}, m, m');
    }
  }

  /** Writing one entry changes the total by exactly the change of that entry. */
  lemma TotalUpdate<K>(m: map<K, int>, k: K, v: int)
    ensures Total(m[k := v]) == Total(m) - Get(m, k) + v
  {
    var m' := m[k := v];
    SumSplit(m'.Keys, m', k);
    SumFrame(m'.Keys - {k}, m', m);
    if k in m {
      SumSplit(m.Keys, m, k);
      assert m'.Keys == m.Keys;
    } else {
      assert m'.Keys - {k} == m.Keys;
    }
  }

  lemma {:induction false} SumNonNegative<K>(keys: set<K>, m: map<K, int>)
    requires NonNegative(m)
    ensures 0 <= SumOver(keys, m)
    decreases |keys|
  {
    if keys != {} {
      var k :| k in keys;
      SumSplit(keys, m, k);
      SumNonNegative(keys - {k}, m);
    }
  }

  /** Two different entries of a non-negative map together stay below its total. */
  lemma EntriesBelowTotal<K>(m: map<K, int>, j: K, k: K)
    requires NonNegative(m)
    ensures 0 <= Get(m, k) <= Total(m)
    ensures j != k ==> Get(m, j) + Get(m, k) <= Total(m)
  {
    var with := m.Keys + {j, k};
    SumMissing(m, with);
    SumSplit(with, m, k);
    SumNonNegative(with - {k}, m);
    if j != k {
      SumSplit(with - {k}, m, j);
      SumNonNegative(with - {k} - {j}, m);
    }
  }

  lemma {:induction false} SumMissing<K>(m: map<K, int>, keys: set<K>)
    requires m.Keys <= keys
    ensures SumOver(keys, m) == Total(m)
    decreases |keys|
  {
    if keys != m.Keys {
      var k :| k in keys && k !in m.Keys;
      SumSplit(keys, m, k);
      SumMissing(m, keys - {k});
    }
  }
}
