/** Grouping validators' stake by version or by client, beside the direct totals. */
module StakeTotals {
  import opened Prelude
  import opened Tally

  datatype Bucket = Bucket(currentValidators: u64, currentStake: u64, delinquentValidators: u64, delinquentStake: u64)

  const NO_STAKE := Bucket(0, 0, 0, 0)

  /** Each entry as a validator counted once. */
  function Ones<K>(entries: seq<Entry<K>>): (ones: seq<Entry<K>>)
    ensures |ones| == |entries|
    ensures forall i :: 0 <= i < |entries| ==> ones[i] == Entry(entries[i].key, 1)
  {
    seq(|entries|, i requires 0 <= i < |entries| => Entry(entries[i].key, 1))
  }

  function Find<K>(m: map<K, Bucket>, key: K): Bucket { if key in m then m[key] else NO_STAKE }

  ghost predicate Counts<K(!new)>(bucket: Bucket, current: seq<Entry<K>>, delinquent: seq<Entry<K>>, key: K) {
    && bucket.currentStake == WeightOf(current, key)
    && bucket.currentValidators == WeightOf(Ones(current), key)
    && bucket.delinquentStake == WeightOf(delinquent, key)
    && bucket.delinquentValidators == WeightOf(Ones(delinquent), key)
  }

  /** What the groups must be: exactly the keys that occur, each with the counts and
      stakes of its own validators. */
  ghost predicate Grouped<K(!new)>(m: map<K, Bucket>, current: seq<Entry<K>>, delinquent: seq<Entry<K>>) {
    && m.Keys == KeysOf(current) + KeysOf(delinquent)
    && forall k :: Counts(Find(m, k), current, delinquent, k)
  }

  lemma {:induction false} PushKeys<K(!new)>(entries: seq<Entry<K>>, i: nat)
    requires i < |entries|
    ensures KeysOf(entries[..i + 1]) == KeysOf(entries[..i]) + {entries[i].key}
  {
    assert entries[..i + 1] == entries[..i] + [entries[i]];
  }

  lemma {:induction false} Push<K(!new)>(entries: seq<Entry<K>>, i: nat, k: K)
    requires i < |entries|
    ensures WeightOf(entries[..i + 1], k) ==
              WeightOf(entries[..i], k) + (if entries[i].key == k then entries[i].weight else 0)
    ensures WeightOf(Ones(entries[..i + 1]), k) ==
              WeightOf(Ones(entries[..i]), k) + (if entries[i].key == k then 1 else 0)
  {
    assert entries[..i + 1][..i] == entries[..i];
    assert Ones(entries[..i + 1])[..i] == Ones(entries[..i]);
  }

  lemma {:induction false} NoOverflow<K(!new)>(entries: seq<Entry<K>>, i: nat, k: K)
    requires i < |entries| && Total(entries) <= U64_MAX && |entries| <= U64_MAX
    ensures WeightOf(entries[..i + 1], k) <= U64_MAX && WeightOf(Ones(entries[..i + 1]), k) <= U64_MAX
  {
    PrefixBelowTotal(entries, i + 1);
    WeightBelowTotal(entries[..i + 1], k);
    WeightBelowTotal(Ones(entries[..i + 1]), k);
    TotalOfOnes(entries[..i + 1]);
  }

  lemma {:induction false} AddCurrent<K(!new)>(m: map<K, Bucket>, current: seq<Entry<K>>, i: nat, bucket: Bucket)
    requires i < |current| && Grouped(m, current[..i], [])
    requires Counts(bucket, current[..i + 1], [], current[i].key)
    ensures Grouped(m[current[i].key := bucket], current[..i + 1], [])
  {
    var m' := m[current[i].key := bucket];
    PushKeys(current, i);
    forall k ensures Counts(Find(m', k), current[..i + 1], [], k) {
      assert Counts(Find(m, k), current[..i], [], k);
      Push(current, i, k);
    }
  }

  lemma {:induction false} AddDelinquent<K(!new)>(m: map<K, Bucket>, current: seq<Entry<K>>, delinquent: seq<Entry<K>>,
                                                  i: nat, bucket: Bucket)
    requires i < |delinquent| && Grouped(m, current, delinquent[..i])
    requires Counts(bucket, current, delinquent[..i + 1], delinquent[i].key)
    ensures Grouped(m[delinquent[i].key := bucket], current, delinquent[..i + 1])
  {
    var m' := m[delinquent[i].key := bucket];
    PushKeys(delinquent, i);
    forall k ensures Counts(Find(m', k), current, delinquent[..i + 1], k) {
      assert Counts(Find(m, k), current, delinquent[..i], k);
      Push(delinquent, i, k);
    }
  }

  lemma {:induction false} TotalOfOnes<K>(entries: seq<Entry<K>>)
    ensures Total(Ones(entries)) == |entries|
  {
    if entries != [] {
      TotalOfOnes(entries[..|entries| - 1]);
      assert Ones(entries)[..|entries| - 1] == Ones(entries[..|entries| - 1]);
    }
  }

  /** One of the two groupings of the validators list (by version, or by client). */
  method GroupStakes<K(==,!new)>(current: seq<Entry<K>>, delinquent: seq<Entry<K>>) returns (m: map<K, Bucket>)
    requires Total(current) <= U64_MAX && Total(delinquent) <= U64_MAX
    requires |current| <= U64_MAX && |delinquent| <= U64_MAX
    ensures Grouped(m, current, delinquent)
  {
    m := map[];
    for i := 0 to |current|
      invariant Grouped(m, current[..i], [])
    {
      var validator := current[i];
      var bucket := Find(m, validator.key);
      Push(current, i, validator.key);
      NoOverflow(current, i, validator.key);
      bucket := bucket.(
        currentValidators := SatAdd(bucket.currentValidators, 1),
        currentStake := SatAdd(bucket.currentStake, validator.weight));
      AddCurrent(m, current, i, bucket);
      m := m[validator.key := bucket];
    }
    assert current[..|current|] == current;
    for i := 0 to |delinquent|
      invariant Grouped(m, current, delinquent[..i])
    {
      var validator := delinquent[i];
      var bucket := Find(m, validator.key);
      Push(delinquent, i, validator.key);
      NoOverflow(delinquent, i, validator.key);
      bucket := bucket.(
        delinquentValidators := SatAdd(bucket.delinquentValidators, 1),
        delinquentStake := SatAdd(bucket.delinquentStake, validator.weight));
      AddDelinquent(m, current, delinquent, i, bucket);
      m := m[validator.key := bucket];
    }
    assert delinquent[..|delinquent|] == delinquent;
  }

  ghost function CurrentStakes<K>(m: map<K, Bucket>): map<K, nat> { map k | k in m :: m[k].currentStake }
  ghost function DelinquentStakes<K>(m: map<K, Bucket>): map<K, nat> { map k | k in m :: m[k].delinquentStake }
  ghost function Validators<K>(m: map<K, Bucket>): map<K, nat> {
    map k | k in m :: m[k].currentValidators + m[k].delinquentValidators
  }

  /** The current stake of the summary: all stake less the delinquent stake. */
  function CurrentTotal<K>(current: seq<Entry<K>>, delinquent: seq<Entry<K>>): nat {
    SatSub(Total(current) + Total(delinquent), Total(delinquent))
  }

  /** Every grouping adds up to the direct totals and counts every validator once. */
  lemma {:induction false} GroupsAddUp<K(!new)>(m: map<K, Bucket>, current: seq<Entry<K>>, delinquent: seq<Entry<K>>)
    requires Grouped(m, current, delinquent)
    ensures Sum(CurrentStakes(m)) == CurrentTotal(current, delinquent)
    ensures Sum(DelinquentStakes(m)) == Total(delinquent)
    ensures Sum(Validators(m)) == |current| + |delinquent|
  {
    assert forall k :: k in m ==> Counts(Find(m, k), current, delinquent, k);
    assert CurrentStakes(m) == WeightMap(m.Keys, current);
    assert DelinquentStakes(m) == WeightMap(m.Keys, delinquent);
    GroupsConserve(m.Keys, current);
    GroupsConserve(m.Keys, delinquent);
    ValidatorsAddUp(m, current, delinquent);
  }

  lemma {:induction false} ValidatorsAddUp<K(!new)>(m: map<K, Bucket>, current: seq<Entry<K>>,
                                                    delinquent: seq<Entry<K>>)
    requires Grouped(m, current, delinquent)
    ensures Sum(Validators(m)) == |current| + |delinquent|
  {
    var all := Ones(current) + Ones(delinquent);
    forall e | e in all ensures e.key in m.Keys {
      var i :| 0 <= i < |all| && all[i] == e;
      if i < |current| {
        assert current[i] in current;
      } else {
        assert delinquent[i - |current|] in delinquent;
      }
    }
    forall k | k in m ensures Validators(m)[k] == WeightOf(all, k) {
      assert Counts(Find(m, k), current, delinquent, k);
      WeightConcat(Ones(current), Ones(delinquent), k);
    }
    assert Validators(m) == WeightMap(m.Keys, all);
    GroupsConserve(m.Keys, all);
    TotalConcat(Ones(current), Ones(delinquent));
    TotalOfOnes(current);
    TotalOfOnes(delinquent);
  }

  lemma {:induction false} WeightConcat<K>(a: seq<Entry<K>>, b: seq<Entry<K>>, key: K)
    ensures WeightOf(a + b, key) == WeightOf(a, key) + WeightOf(b, key)
    decreases |b|
  {
    if b == [] {
      assert a + b == a;
    } else {
      assert (a + b)[..|a + b| - 1] == a + b[..|b| - 1];
      WeightConcat(a, b[..|b| - 1], key);
    }
  }

  lemma {:induction false} TotalConcat<K>(a: seq<Entry<K>>, b: seq<Entry<K>>)
    ensures Total(a + b) == Total(a) + Total(b)
    decreases |b|
  {
    if b == [] {
      assert a + b == a;
    } else {
      assert (a + b)[..|a + b| - 1] == a + b[..|b| - 1];
      TotalConcat(a, b[..|b| - 1]);
    }
  }
}
