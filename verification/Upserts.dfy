/** INSERT ... VALUES ... ON CONFLICT DO UPDATE, on a table keyed by its unique constraint. */
module Upserts {
  import opened Common

  function Get<K, V>(table: map<K, V>, k: K): Option<V> { if k in table then Some(table[k]) else None }

  /** What one proposed row becomes: itself, or the update of the row it conflicts with. */
  function Merged<V>(existing: Option<V>, excluded: V, update: (V, V) -> V): V {
    if existing.Some? then update(existing.value, excluded) else excluded
  }

  function Upsert<K, V>(table: map<K, V>, values: seq<(K, V)>, update: (V, V) -> V): map<K, V> {
    if values == [] then table else
      var (k, excluded) := values[|values| - 1];
      var before := Upsert(table, values[..|values| - 1], update);
      before[k := Merged(Get(before, k), excluded, update)]
  }

  /** A key that is not proposed keeps its row. */
  lemma {:induction false} UpsertElsewhere<K, V>(table: map<K, V>, values: seq<(K, V)>, update: (V, V) -> V, k: K)
    requires forall i | 0 <= i < |values| :: values[i].0 != k
    ensures Get(Upsert(table, values, update), k) == Get(table, k)
  {
    if values != [] {
      UpsertElsewhere(table, values[..|values| - 1], update, k);
    }
  }

  /** An upsert of rows with different keys treats each row on its own. */
  lemma {:induction false} UpsertRow<K(!new), V>(table: map<K, V>, values: seq<(K, V)>, update: (V, V) -> V, i: nat)
    requires i < |values| && forall a, b | 0 <= a < b < |values| :: values[a].0 != values[b].0
    ensures Get(Upsert(table, values, update), values[i].0) ==
      Some(Merged(Get(table, values[i].0), values[i].1, update))
  {
    var n := |values| - 1;
    if i == n {
      UpsertElsewhere(table, values[..n], update, values[n].0);
    } else {
      UpsertRow(table, values[..n], update, i);
    }
  }

  /** How many of the keys do not exist yet. */
  function CountNew<K>(existing: set<K>, keys: seq<K>): nat {
    if keys == [] then 0
    else (if keys[0] in existing then 0 else 1) + CountNew(existing, keys[1..])
  }

  /** The number of proposed keys that are new is the growth of the table. */
  lemma {:induction false} GrowthIsCountNew<K(!new)>(existing: set<K>, keys: seq<K>)
    requires Distinct(keys)
    ensures |existing + SeqSet(keys)| == |existing| + CountNew(existing, keys)
    decreases |keys|
  {
    if keys == [] {
      assert existing + SeqSet(keys) == existing;
    } else {
      var k, rest := keys[0], keys[1..];
      DistinctTail(keys);
      assert k in existing ==> existing + {k} == existing;
      GrowthIsCountNew(existing + {k}, rest);
      CountIgnores(existing, rest, k);
      SetOfCons(existing, keys);
    }
  }

  lemma DistinctTail<K(!new)>(keys: seq<K>)
    requires keys != [] && Distinct(keys)
    ensures Distinct(keys[1..]) && keys[0] !in keys[1..]
  {
  }

  lemma SetOfCons<K>(existing: set<K>, keys: seq<K>)
    requires keys != []
    ensures existing + SeqSet(keys) == existing + {keys[0]} + SeqSet(keys[1..])
  {
    assert keys == [keys[0]] + keys[1..];
  }

  lemma {:induction false} CountIgnores<K>(existing: set<K>, keys: seq<K>, k: K)
    requires k !in keys
    ensures CountNew(existing + {k}, keys) == CountNew(existing, keys)
  {
    if keys != [] {
      CountIgnores(existing, keys[1..], k);
    }
  }
}
