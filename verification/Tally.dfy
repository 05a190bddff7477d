/** Sums over the values of a map, and grouping a list of weighted entries by key. */
module Tally {
  ghost function Sum<K>(m: map<K, nat>): nat {
    if m == map[] then 0 else var k :| k in m; m[k] + Sum(m - {k})
  }

  /** Which key is taken out first does not matter. */
  lemma {:induction false} SumTakes<K>(m: map<K, nat>, k: K)
    requires k in m
    ensures Sum(m) == m[k] + Sum(m - {k})
    decreases |m|
  {
    var first :| first in m && Sum(m) == m[first] + Sum(m - {first});
    if first != k {
      assert |m - {first}| < |m| && |m - {k}| < |m| by {
        assert (m - {first}).Keys == m.Keys - {first} && (m - {k}).Keys == m.Keys - {k};
      }
      SumTakes(m - {first}, k);
      SumTakes(m - {k}, first);
      assert (m - {first}) - {k} == (m - {k}) - {first};
    }
  }

  lemma {:induction false} SumSets<K>(m: map<K, nat>, k: K, v: nat)
    ensures Sum(m[k := v]) == Sum(m - {k}) + v
  {
    SumTakes(m[k := v], k);
    assert m[k := v] - {k} == m - {k};
  }

  datatype Entry<K> = Entry(key: K, weight: nat)

  function Total<K>(entries: seq<Entry<K>>): nat {
    if entries == [] then 0 else Total(entries[..|entries| - 1]) + entries[|entries| - 1].weight
  }

  function WeightOf<K(==)>(entries: seq<Entry<K>>, key: K): nat {
    if entries == [] then 0
    else
      var last := entries[|entries| - 1];
      WeightOf(entries[..|entries| - 1], key) + (if last.key == key then last.weight else 0)
  }

  ghost function KeysOf<K>(entries: seq<Entry<K>>): set<K> { set e | e in entries :: e.key }

  ghost function WeightMap<K(!new)>(keys: set<K>, entries: seq<Entry<K>>): map<K, nat> {
    map k | k in keys :: WeightOf(entries, k)
  }

  lemma {:induction false} ZeroMap<K(!new)>(keys: set<K>)
    ensures Sum(WeightMap(keys, [])) == 0
    decreases |keys|
  {
    var m := WeightMap(keys, []);
    if m != map[] {
      var k :| k in m;
      SumTakes(m, k);
      assert m - {k} == WeightMap(keys - {k}, []);
      ZeroMap(keys - {k});
    }
  }

  /** The weight of the entries whose key is among the given ones. */
  function TotalOn<K>(keys: set<K>, entries: seq<Entry<K>>): nat {
    if entries == [] then 0
    else
      var last := entries[|entries| - 1];
      TotalOn(keys, entries[..|entries| - 1]) + (if last.key in keys then last.weight else 0)
  }

  /** Grouping under any set of keys conserves what lies on those keys. */
  lemma {:induction false} GroupsConserveOn<K(!new)>(keys: set<K>, entries: seq<Entry<K>>)
    ensures Sum(WeightMap(keys, entries)) == TotalOn(keys, entries)
  {
    if entries == [] {
      ZeroMap(keys);
    } else {
      var front, last := entries[..|entries| - 1], entries[|entries| - 1];
      GroupsConserveOn(keys, front);
      var before, after := WeightMap(keys, front), WeightMap(keys, entries);
      if last.key in keys {
        SumTakes(before, last.key);
        SumTakes(after, last.key);
        assert before - {last.key} == after - {last.key};
      } else {
        assert before == after;
      }
    }
  }

  /** Grouping conserves the total when every key has its group. */
  lemma {:induction false} GroupsConserve<K(!new)>(keys: set<K>, entries: seq<Entry<K>>)
    requires KeysOf(entries) <= keys
    ensures Sum(WeightMap(keys, entries)) == Total(entries)
  {
    GroupsConserveOn(keys, entries);
    TotalOnAll(keys, entries);
  }

  lemma {:induction false} TotalOnAll<K(!new)>(keys: set<K>, entries: seq<Entry<K>>)
    requires KeysOf(entries) <= keys
    ensures TotalOn(keys, entries) == Total(entries)
  {
    if entries != [] {
      assert entries[|entries| - 1] in entries;
      assert forall e :: e in entries[..|entries| - 1] ==> e in entries;
      TotalOnAll(keys, entries[..|entries| - 1]);
    }
  }

  // ----------------------------------------------------------------------
  // Aggregating the groups further

  /** The groups that fall together under a projection of their keys. */
  ghost function Part<K(!new), G>(m: map<K, nat>, p: K -> G, g: G): map<K, nat> {
    map k | k in m && p(k) == g :: m[k]
  }

  ghost function Groups<K(!new), G(!new)>(m: map<K, nat>, p: K -> G): set<G> { set k | k in m :: p(k) }

  ghost function Regrouped<K(!new), G(!new)>(m: map<K, nat>, p: K -> G): map<G, nat> {
    map g | g in Groups(m, p) :: Sum(Part(m, p, g))
  }

  function Amount<G>(m: map<G, nat>, g: G): nat { if g in m then m[g] else 0 }

  lemma {:induction false} AmountIsSum<K(!new), G(!new)>(m: map<K, nat>, p: K -> G, g: G)
    ensures Amount(Regrouped(m, p), g) == Sum(Part(m, p, g))
  {
    if g !in Groups(m, p) {
      assert Part(m, p, g) == map[];
    }
  }

  lemma {:induction false} PartOfMore<K(!new), G>(m: map<K, nat>, p: K -> G, k: K, v: nat, g: G)
    requires k !in m
    ensures Sum(Part(m[k := v], p, g)) == Sum(Part(m, p, g)) + (if p(k) == g then v else 0)
  {
    if p(k) == g {
      SumSets(Part(m, p, g), k, v);
      assert Part(m[k := v], p, g) == Part(m, p, g)[k := v];
      assert Part(m, p, g) - {k} == Part(m, p, g);
    } else {
      assert Part(m[k := v], p, g) == Part(m, p, g);
    }
  }

  /** One more entry raises its own group. */
  lemma {:induction false} RegroupNext<K(!new), G(!new)>(m: map<K, nat>, p: K -> G, k: K, v: nat)
    requires k !in m
    ensures Regrouped(m[k := v], p) == Regrouped(m, p)[p(k) := Amount(Regrouped(m, p), p(k)) + v]
  {
    var before, after := Regrouped(m, p), Regrouped(m[k := v], p);
    assert Groups(m[k := v], p) == Groups(m, p) + {p(k)};
    forall g | g in after ensures after[g] == Amount(before, g) + (if p(k) == g then v else 0) {
      PartOfMore(m, p, k, v, g);
      AmountIsSum(m, p, g);
    }
  }

  /** Aggregating by any projection of the keys conserves the sum. */
  lemma {:induction false} RegroupingConserves<K(!new), G(!new)>(m: map<K, nat>, p: K -> G)
    ensures Sum(Regrouped(m, p)) == Sum(m)
    decreases |m|
  {
    if m == map[] {
      assert Groups(m, p) == {};
      assert Regrouped(m, p) == map[];
    } else {
      var k :| k in m;
      var less, v := m - {k}, m[k];
      assert less.Keys == m.Keys - {k};
      RegroupingConserves(less, p);
      SumTakes(m, k);
      RegroupRaises(less, p, k, v);
      assert m == less[k := v];
    }
  }

  lemma {:induction false} RegroupRaises<K(!new), G(!new)>(m: map<K, nat>, p: K -> G, k: K, v: nat)
    requires k !in m
    ensures Sum(Regrouped(m[k := v], p)) == Sum(Regrouped(m, p)) + v
  {
    RegroupNext(m, p, k, v);
    RaiseOne(Regrouped(m, p), Regrouped(m[k := v], p), p(k), v);
  }

  lemma {:induction false} RaiseOne<G>(before: map<G, nat>, after: map<G, nat>, g: G, v: nat)
    requires after == before[g := Amount(before, g) + v]
    ensures Sum(after) == Sum(before) + v
  {
    SumSets(before, g, Amount(before, g) + v);
    if g in before {
      SumTakes(before, g);
    } else {
      assert before - {g} == before;
    }
  }

  lemma {:induction false} WeightBelowTotal<K>(entries: seq<Entry<K>>, key: K)
    ensures WeightOf(entries, key) <= Total(entries)
  {
    if entries != [] {
      WeightBelowTotal(entries[..|entries| - 1], key);
    }
  }

  lemma {:induction false} PrefixBelowTotal<K>(entries: seq<Entry<K>>, n: nat)
    requires n <= |entries|
    ensures Total(entries[..n]) <= Total(entries)
  {
    if n == |entries| {
      assert entries[..n] == entries;
    } else {
      assert entries[..|entries| - 1][..n] == entries[..n];
      PrefixBelowTotal(entries[..|entries| - 1], n);
    }
  }
}
