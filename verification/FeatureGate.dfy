/** The feature-activation gate: stake per reported configuration, aggregated by
    feature set, must reach 95% before a feature may be activated.

    Percentages are kept as exact fractions over the common totals: a stake of s out
    of t is at least p percent when 100 * s >= p * t.  With a total of zero the
    source's quotient is not a number and every such comparison is false. */
module FeatureGate {
  import opened Prelude
  import opened Tally

  datatype Node = Node(pubkey: string, featureSet: Option<u32>, isRpc: bool, version: string)

  datatype Vote = Vote(node: string, stake: u64)

  datatype Configuration = Configuration(featureSet: u32, version: string)

  datatype Stats = Stats(stake: u64, rpcNodes: u32)

  function ConfigurationOf(n: Node): Configuration {
    Configuration(if n.featureSet.Some? then n.featureSet.value else 0, n.version)
  }

  /** Several vote accounts of one node overwrite each other; the last one counts. */
  function LastStake(votes: seq<Vote>, node: string): nat {
    if votes == [] then 0
    else
      var last := votes[|votes| - 1];
      if last.node == node then last.stake else LastStake(votes[..|votes| - 1], node)
  }

  function TotalStake(votes: seq<Vote>): nat {
    if votes == [] then 0 else TotalStake(votes[..|votes| - 1]) + votes[|votes| - 1].stake
  }

  function StakeEntries(nodes: seq<Node>, votes: seq<Vote>): (entries: seq<Entry<Configuration>>)
    ensures |entries| == |nodes|
  {
    seq(|nodes|, i requires 0 <= i < |nodes| => Entry(ConfigurationOf(nodes[i]), LastStake(votes, nodes[i].pubkey)))
  }

  ghost predicate UniqueNodes(nodes: seq<Node>) {
    forall i, j :: 0 <= i < j < |nodes| ==> nodes[i].pubkey != nodes[j].pubkey
  }

  // ----------------------------------------------------------------------
  // Stake of the nodes against stake of the votes

  type Selection = Node -> bool

  /** The node reports the feature set; one that reports none counts for 0. */
  function ByFeatureSet(featureSet: u32): Selection {
    (n: Node) => n.featureSet == Some(featureSet) || (n.featureSet.None? && featureSet == 0)
  }

  function ByConfiguration(key: Configuration): Selection { n => ConfigurationOf(n) == key }

  /** The stake counted for the selected nodes. */
  function NodesShare(nodes: seq<Node>, votes: seq<Vote>, keep: Selection): nat {
    if nodes == [] then 0
    else
      var last := nodes[|nodes| - 1];
      NodesShare(nodes[..|nodes| - 1], votes, keep) + (if keep(last) then LastStake(votes, last.pubkey) else 0)
  }

  predicate Selected(nodes: seq<Node>, node: string, keep: Selection) {
    exists i :: 0 <= i < |nodes| && nodes[i].pubkey == node && keep(nodes[i])
  }

  /** The real stake behind the selected nodes: all their votes. */
  function RealStake(nodes: seq<Node>, votes: seq<Vote>, keep: Selection): nat {
    if votes == [] then 0
    else
      var last := votes[|votes| - 1];
      RealStake(nodes, votes[..|votes| - 1], keep) + (if Selected(nodes, last.node, keep) then last.stake else 0)
  }

  lemma {:induction false} RealBelowTotal(nodes: seq<Node>, votes: seq<Vote>, keep: Selection)
    ensures RealStake(nodes, votes, keep) <= TotalStake(votes)
  {
    if votes != [] {
      RealBelowTotal(nodes, votes[..|votes| - 1], keep);
    }
  }

  /** One more vote raises the nodes' share by at most its stake, and only if its node
      is selected. */
  lemma {:induction false} ShareGrows(nodes: seq<Node>, votes: seq<Vote>, keep: Selection)
    requires UniqueNodes(nodes) && votes != []
    ensures
      var last := votes[|votes| - 1];
      NodesShare(nodes, votes, keep) <=
        NodesShare(nodes, votes[..|votes| - 1], keep) + (if Selected(nodes, last.node, keep) then last.stake else 0)
    decreases |nodes|
  {
    if nodes != [] {
      var last := votes[|votes| - 1];
      var n := |nodes| - 1;
      ShareGrows(nodes[..n], votes, keep);
      if Selected(nodes[..n], last.node, keep) {
        var i :| 0 <= i < n && nodes[..n][i].pubkey == last.node && keep(nodes[..n][i]);
        assert nodes[i].pubkey != nodes[n].pubkey;
        assert nodes[i].pubkey == last.node && keep(nodes[i]);
        assert Selected(nodes, last.node, keep);
      }
    }
  }

  /** The stake counted for nodes never exceeds the real stake behind them. */
  lemma {:induction false} ShareIsReal(nodes: seq<Node>, votes: seq<Vote>, keep: Selection)
    requires UniqueNodes(nodes)
    ensures NodesShare(nodes, votes, keep) <= RealStake(nodes, votes, keep)
    decreases |votes|
  {
    if votes == [] {
      NoVotesNoShare(nodes, keep);
    } else {
      ShareGrows(nodes, votes, keep);
      ShareIsReal(nodes, votes[..|votes| - 1], keep);
    }
  }

  lemma {:induction false} NoVotesNoShare(nodes: seq<Node>, keep: Selection)
    ensures NodesShare(nodes, [], keep) == 0
  {
    if nodes != [] {
      NoVotesNoShare(nodes[..|nodes| - 1], keep);
    }
  }

  /** A node reports one feature set, so two of them share the votes between them. */
  lemma {:induction false} TwoFeatureSets(nodes: seq<Node>, votes: seq<Vote>, a: u32, b: u32)
    requires UniqueNodes(nodes) && a != b
    ensures RealStake(nodes, votes, ByFeatureSet(a)) + RealStake(nodes, votes, ByFeatureSet(b)) <= TotalStake(votes)
  {
    if votes != [] {
      TwoFeatureSets(nodes, votes[..|votes| - 1], a, b);
    }
  }

  lemma {:induction false} WeightIsShare(nodes: seq<Node>, votes: seq<Vote>, key: Configuration)
    ensures WeightOf(StakeEntries(nodes, votes), key) == NodesShare(nodes, votes, ByConfiguration(key))
  {
    if nodes != [] {
      WeightIsShare(nodes[..|nodes| - 1], votes, key);
      assert StakeEntries(nodes, votes)[..|nodes| - 1] == StakeEntries(nodes[..|nodes| - 1], votes);
    }
  }

  /** What lies on configurations of one feature set is at most that feature set's share. */
  lemma {:induction false} OnFeatureSet(keys: set<Configuration>, nodes: seq<Node>, votes: seq<Vote>, featureSet: u32)
    requires forall key :: key in keys ==> key.featureSet == featureSet
    ensures TotalOn(keys, StakeEntries(nodes, votes)) <= NodesShare(nodes, votes, ByFeatureSet(featureSet))
  {
    if nodes != [] {
      OnFeatureSet(keys, nodes[..|nodes| - 1], votes, featureSet);
      assert StakeEntries(nodes, votes)[..|nodes| - 1] == StakeEntries(nodes[..|nodes| - 1], votes);
    }
  }

  // ----------------------------------------------------------------------
  // Collecting the statistics

  function Get(m: map<Configuration, Stats>, key: Configuration): Stats { if key in m then m[key] else Stats(0, 0) }

  function RpcEntries(nodes: seq<Node>): (entries: seq<Entry<Configuration>>)
    ensures |entries| == |nodes|
  {
    seq(|nodes|, i requires 0 <= i < |nodes| => Entry(ConfigurationOf(nodes[i]), if nodes[i].isRpc then 1 else 0))
  }

  ghost predicate Collected(m: map<Configuration, Stats>, stakes: seq<Entry<Configuration>>,
                            rpcs: seq<Entry<Configuration>>) {
    && m.Keys == KeysOf(stakes)
    && forall key :: Get(m, key).stake == WeightOf(stakes, key) && Get(m, key).rpcNodes == WeightOf(rpcs, key)
  }

  lemma {:induction false} CollectNext(m: map<Configuration, Stats>, stakes: seq<Entry<Configuration>>,
                                       rpcs: seq<Entry<Configuration>>, i: nat, stats: Stats)
    requires i < |stakes| == |rpcs| && stakes[i].key == rpcs[i].key && Collected(m, stakes[..i], rpcs[..i])
    requires stats.stake == Get(m, stakes[i].key).stake + stakes[i].weight
    requires stats.rpcNodes == Get(m, stakes[i].key).rpcNodes + rpcs[i].weight
    ensures Collected(m[stakes[i].key := stats], stakes[..i + 1], rpcs[..i + 1])
  {
    var m', stakes', rpcs' := m[stakes[i].key := stats], stakes[..i + 1], rpcs[..i + 1];
    assert stakes' == stakes[..i] + [stakes[i]];
    assert stakes'[..i] == stakes[..i] && rpcs'[..i] == rpcs[..i];
    forall key ensures Get(m', key).stake == WeightOf(stakes', key) && Get(m', key).rpcNodes == WeightOf(rpcs', key) {
      assert Get(m, key).stake == WeightOf(stakes[..i], key) && Get(m, key).rpcNodes == WeightOf(rpcs[..i], key);
    }
  }

  /** The vote map and the total of active stake. */
  method CollectVotes(current: seq<Vote>, delinquent: seq<Vote>) returns (voteStakes: map<string, u64>, total: u64)
    requires TotalStake(current) + TotalStake(delinquent) <= U64_MAX
    ensures total == TotalStake(current) + TotalStake(delinquent)
    ensures HoldsVotes(voteStakes, current)
  {
    total := TotalStake(delinquent);
    voteStakes := map[];
    for i := 0 to |current|
      invariant total == TotalStake(current[..i]) + TotalStake(delinquent)
      invariant HoldsVotes(voteStakes, current[..i])
    {
      var vote := current[i];
      assert current[..i + 1][..i] == current[..i];
      PrefixStake(current, i + 1);
      total := SatAdd(total, vote.stake);
      voteStakes := voteStakes[vote.node := vote.stake];
    }
    assert current[..|current|] == current;
  }

  lemma {:induction false} PrefixStake(votes: seq<Vote>, n: nat)
    requires n <= |votes|
    ensures TotalStake(votes[..n]) <= TotalStake(votes)
  {
    if n == |votes| {
      assert votes[..n] == votes;
    } else {
      assert votes[..|votes| - 1][..n] == votes[..n];
      PrefixStake(votes[..|votes| - 1], n);
    }
  }

  lemma {:induction false} StakeFits(nodes: seq<Node>, votes: seq<Vote>, i: nat, key: Configuration)
    requires UniqueNodes(nodes) && i <= |nodes|
    ensures WeightOf(StakeEntries(nodes, votes)[..i], key) <= TotalStake(votes)
  {
    assert StakeEntries(nodes, votes)[..i] == StakeEntries(nodes[..i], votes);
    WeightIsShare(nodes[..i], votes, key);
    ShareIsReal(nodes[..i], votes, ByConfiguration(key));
    RealBelowTotal(nodes[..i], votes, ByConfiguration(key));
  }

  lemma {:induction false} RpcFits(nodes: seq<Node>, i: nat, key: Configuration)
    requires i <= |nodes|
    ensures WeightOf(RpcEntries(nodes)[..i], key) <= Total(RpcEntries(nodes)[..i]) <= i
  {
    if i != 0 {
      RpcFits(nodes, i - 1, key);
      assert RpcEntries(nodes)[..i][..i - 1] == RpcEntries(nodes)[..i - 1];
    }
  }

  function AddNode(entry: Stats, node: Node, voteStakes: map<string, u64>): Stats {
    Stats(if node.pubkey in voteStakes then SatAdd(entry.stake, voteStakes[node.pubkey]) else entry.stake,
          if node.isRpc then Min(entry.rpcNodes + 1, U32_MAX) else entry.rpcNodes)
  }

  ghost predicate HoldsVotes(voteStakes: map<string, u64>, votes: seq<Vote>) {
    forall node :: (if node in voteStakes then voteStakes[node] else 0) == LastStake(votes, node)
  }

  lemma {:induction false} AddNodeIsExact(nodes: seq<Node>, votes: seq<Vote>, voteStakes: map<string, u64>, i: nat,
                                          entry: Stats)
    requires UniqueNodes(nodes) && TotalStake(votes) <= U64_MAX && |nodes| <= U32_MAX && HoldsVotes(voteStakes, votes)
    requires
      && i < |nodes|
      && entry.stake == WeightOf(StakeEntries(nodes, votes)[..i], ConfigurationOf(nodes[i]))
      && entry.rpcNodes == WeightOf(RpcEntries(nodes)[..i], ConfigurationOf(nodes[i]))
    ensures AddNode(entry, nodes[i], voteStakes).stake == entry.stake + StakeEntries(nodes, votes)[i].weight
    ensures AddNode(entry, nodes[i], voteStakes).rpcNodes == entry.rpcNodes + RpcEntries(nodes)[i].weight
  {
    var key, stakes, rpcs := ConfigurationOf(nodes[i]), StakeEntries(nodes, votes), RpcEntries(nodes);
    StakeFits(nodes, votes, i + 1, key);
    RpcFits(nodes, i + 1, key);
    assert stakes[..i + 1][..i] == stakes[..i] && rpcs[..i + 1][..i] == rpcs[..i];
    var node := nodes[i].pubkey;
    assert (if node in voteStakes then voteStakes[node] else 0) == LastStake(votes, node);
  }

  lemma {:induction false} CollectNode(stats: map<Configuration, Stats>, nodes: seq<Node>, votes: seq<Vote>,
                                       voteStakes: map<string, u64>, i: nat)
    requires UniqueNodes(nodes) && TotalStake(votes) <= U64_MAX && |nodes| <= U32_MAX && HoldsVotes(voteStakes, votes)
    requires i < |nodes| && Collected(stats, StakeEntries(nodes, votes)[..i], RpcEntries(nodes)[..i])
    ensures
      var key := ConfigurationOf(nodes[i]);
      Collected(stats[key := AddNode(Get(stats, key), nodes[i], voteStakes)],
                StakeEntries(nodes, votes)[..i + 1], RpcEntries(nodes)[..i + 1])
  {
    var entry := Get(stats, ConfigurationOf(nodes[i]));
    AddNodeIsExact(nodes, votes, voteStakes, i, entry);
    CollectNext(stats, StakeEntries(nodes, votes), RpcEntries(nodes), i, AddNode(entry, nodes[i], voteStakes));
  }

  /** The statistics before small entries are dropped: per configuration the stake and
      the number of RPC nodes; no saturating addition ever saturates. */
  method CollectStats(nodes: seq<Node>, current: seq<Vote>, voteStakes: map<string, u64>)
    returns (stats: map<Configuration, Stats>, rpcNodes: nat)
    requires UniqueNodes(nodes) && TotalStake(current) <= U64_MAX && |nodes| <= U32_MAX
    requires HoldsVotes(voteStakes, current)
    ensures Collected(stats, StakeEntries(nodes, current), RpcEntries(nodes))
    ensures rpcNodes == Total(RpcEntries(nodes))
  {
    stats, rpcNodes := map[], 0;
    ghost var stakes, rpcs := StakeEntries(nodes, current), RpcEntries(nodes);
    for i := 0 to |nodes|
      invariant Collected(stats, stakes[..i], rpcs[..i])
      invariant rpcNodes == Total(rpcs[..i])
    {
      var key := ConfigurationOf(nodes[i]);
      CollectNode(stats, nodes, current, voteStakes, i);
      assert rpcs[..i + 1][..i] == rpcs[..i];
      stats := stats[key := AddNode(Get(stats, key), nodes[i], voteStakes)];
      if nodes[i].isRpc {
        rpcNodes := rpcNodes + 1;
      }
    }
    assert stakes[..|nodes|] == stakes && rpcs[..|nodes|] == rpcs;
  }

  // ----------------------------------------------------------------------
  // Aggregation and the gate

  /** Entries of less than a thousandth of a percent in both respects are dropped. */
  predicate Kept(stake: nat, rpcNodes: nat, totalStake: nat, totalRpc: nat) {
    || (totalStake != 0 && totalStake <= 100_000 * stake)
    || (totalRpc != 0 && totalRpc <= 100_000 * rpcNodes)
  }

  /** A share in percent, as the source computes it but exactly. */
  ghost function Percent(part: nat, total: nat): real
    requires total != 0
  {
    part as real / total as real * 100.0
  }

  lemma {:induction false} PercentAtLeast(part: nat, total: nat, n: nat, d: nat)
    requires total != 0 && d != 0
    ensures Percent(part, total) >= n as real / d as real <==> n * total <= 100 * d * part
  {
    var p, t, x, y := part as real, total as real, n as real, d as real;
    assert Percent(part, total) >= x / y <==> p / t * 100.0 * t * y >= x / y * t * y by {
      assert t * y > 0.0;
      Scaled(p / t * 100.0, x / y, t * y);
    }
    assert p / t * 100.0 * t * y == 100.0 * y * p;
    assert x / y * t * y == x * t;
    assert (n * total) as real == x * t && (100 * d * part) as real == 100.0 * y * p;
  }

  lemma {:induction false} Scaled(a: real, b: real, c: real)
    requires c > 0.0
    ensures a >= b <==> a * c >= b * c
  {
  }

  function KeptStats(stats: map<Configuration, Stats>, totalStake: nat, totalRpc: nat): map<Configuration, Stats> {
    map key | key in stats && Kept(stats[key].stake, stats[key].rpcNodes, totalStake, totalRpc) :: stats[key]
  }

  ghost function Stakes(stats: map<Configuration, Stats>): map<Configuration, nat> {
    map key | key in stats :: stats[key].stake
  }

  ghost function Rpcs(stats: map<Configuration, Stats>): map<Configuration, nat> {
    map key | key in stats :: stats[key].rpcNodes
  }

  function FeatureSetOf(): Configuration -> u32 { (key: Configuration) => key.featureSet }
  function VersionOf(): Configuration -> string { (key: Configuration) => key.version }

  datatype Share = Share(stake: nat, rpcNodes: nat)

  datatype FeatureSetEntry = FeatureSetEntry(share: Share, versions: seq<string>)

  function GetShare<G>(shares: map<G, Share>, g: G): Share { if g in shares then shares[g] else Share(0, 0) }

  function AddShare(share: Share, stats: Stats): Share {
    Share(share.stake + stats.stake, share.rpcNodes + stats.rpcNodes)
  }

  ghost function StakesOf<G>(shares: map<G, Share>): map<G, nat> { map g | g in shares :: shares[g].stake }
  ghost function RpcsOf<G>(shares: map<G, Share>): map<G, nat> { map g | g in shares :: shares[g].rpcNodes }

  ghost function GroupShare<G(!new)>(stats: map<Configuration, Stats>, p: Configuration -> G, g: G): Share {
    Share(Sum(Part(Stakes(stats), p, g)), Sum(Part(Rpcs(stats), p, g)))
  }

  ghost function GroupKeys<G(!new)>(stats: map<Configuration, Stats>, p: Configuration -> G): set<G> {
    set key | key in stats :: p(key)
  }

  /** Each group, and no other, has the stake and the RPC nodes of its configurations. */
  ghost predicate Aggregates<G(!new)>(shares: map<G, Share>, stats: map<Configuration, Stats>, p: Configuration -> G) {
    && shares.Keys == GroupKeys(stats, p)
    && forall g :: GetShare(shares, g) == GroupShare(stats, p, g)
  }

  function Added<G>(shares: map<G, Share>, g: G, stats: Stats): map<G, Share> {
    shares[g := AddShare(GetShare(shares, g), stats)]
  }

  lemma {:induction false} StatsPut(seen: map<Configuration, Stats>, key: Configuration, stats: Stats)
    ensures Stakes(seen[key := stats]) == Stakes(seen)[key := stats.stake]
    ensures Rpcs(seen[key := stats]) == Rpcs(seen)[key := stats.rpcNodes]
  {
  }

  lemma {:induction false} GroupShareNext<G(!new)>(seen: map<Configuration, Stats>, p: Configuration -> G,
                                                   key: Configuration, stats: Stats, g: G)
    requires key !in seen
    ensures GroupShare(seen[key := stats], p, g) ==
              if p(key) == g then AddShare(GroupShare(seen, p, g), stats) else GroupShare(seen, p, g)
  {
    StatsPut(seen, key, stats);
    PartOfMore(Stakes(seen), p, key, stats.stake, g);
    PartOfMore(Rpcs(seen), p, key, stats.rpcNodes, g);
  }

  lemma {:induction false} GroupKeysNext<G(!new)>(seen: map<Configuration, Stats>, p: Configuration -> G,
                                                  key: Configuration, stats: Stats)
    ensures GroupKeys(seen[key := stats], p) == GroupKeys(seen, p) + {p(key)}
  {
    assert forall k :: k in seen[key := stats] <==> k in seen || k == key;
  }

  lemma {:induction false} AggregateNext<G(!new)>(shares: map<G, Share>, seen: map<Configuration, Stats>,
                                                  p: Configuration -> G, key: Configuration, stats: Stats)
    requires key !in seen && Aggregates(shares, seen, p)
    ensures Aggregates(Added(shares, p(key), stats), seen[key := stats], p)
  {
    GroupKeysNext(seen, p, key, stats);
    var shares', seen' := Added(shares, p(key), stats), seen[key := stats];
    forall g ensures GetShare(shares', g) == GroupShare(seen', p, g) {
      assert GetShare(shares, g) == GroupShare(seen, p, g);
      GroupShareNext(seen, p, key, stats, g);
    }
  }

  lemma {:induction false} NothingAggregated<G(!new)>(p: Configuration -> G)
    ensures Aggregates(map[], map[], p)
  {
    forall g ensures GroupShare(map[], p, g) == Share(0, 0) {
      assert Part(Stakes(map[]), p, g) == map[] && Part(Rpcs(map[]), p, g) == map[];
    }
  }

  /** An aggregation, figure by figure, is the regrouping of that figure. */
  lemma {:induction false} AggregatesRegroup<G(!new)>(shares: map<G, Share>, stats: map<Configuration, Stats>,
                                                      p: Configuration -> G)
    requires Aggregates(shares, stats, p)
    ensures StakesOf(shares) == Regrouped(Stakes(stats), p)
    ensures RpcsOf(shares) == Regrouped(Rpcs(stats), p)
  {
    assert Groups(Stakes(stats), p) == GroupKeys(stats, p) == Groups(Rpcs(stats), p);
    forall g | g in shares
      ensures StakesOf(shares)[g] == Sum(Part(Stakes(stats), p, g)) && RpcsOf(shares)[g] == Sum(Part(Rpcs(stats), p, g))
    {
      assert GetShare(shares, g) == GroupShare(stats, p, g);
    }
  }

  ghost predicate Visited(stats: map<Configuration, Stats>, todo: set<Configuration>, seen: map<Configuration, Stats>) {
    && todo <= stats.Keys && seen.Keys == stats.Keys - todo
    && forall key :: key in seen ==> seen[key] == stats[key]
  }

  lemma {:induction false} VisitOne(stats: map<Configuration, Stats>, todo: set<Configuration>,
                                    seen: map<Configuration, Stats>, key: Configuration)
    requires Visited(stats, todo, seen) && key in todo
    ensures key !in seen && Visited(stats, todo - {key}, seen[key := stats[key]])
  {
  }

  /** The loop by software version, visiting the map in whatever order. */
  method AggregateBySoftwareVersion(stats: map<Configuration, Stats>) returns (r: map<string, Share>)
    ensures Aggregates(r, stats, VersionOf())
  {
    r := map[];
    var todo := stats.Keys;
    ghost var seen: map<Configuration, Stats> := map[];
    NothingAggregated(VersionOf());
    while todo != {}
      invariant Visited(stats, todo, seen) && Aggregates(r, seen, VersionOf())
      decreases todo
    {
      var key :| key in todo;
      AggregateNext(r, seen, VersionOf(), key, stats[key]);
      VisitOne(stats, todo, seen, key);
      r := Added(r, key.version, stats[key]);
      seen, todo := seen[key := stats[key]], todo - {key};
    }
    assert seen == stats;
  }

  ghost function SharesOf(r: map<u32, FeatureSetEntry>): map<u32, Share> { map f | f in r :: r[f].share }

  ghost predicate NoRepeats(versions: seq<string>) {
    forall i, j :: 0 <= i < j < |versions| ==> versions[i] != versions[j]
  }

  /** Each feature set lists each of its software versions once. */
  ghost predicate ListsVersions(r: map<u32, FeatureSetEntry>, stats: map<Configuration, Stats>) {
    && (forall key :: key in stats ==> key.featureSet in r)
    && (forall f :: f in r ==> NoRepeats(r[f].versions))
    && (forall f, v :: f in r ==> (v in r[f].versions <==> Configuration(f, v) in stats))
  }

  function PushVersion(r: map<u32, FeatureSetEntry>, key: Configuration, stats: Stats): map<u32, FeatureSetEntry> {
    var entry := if key.featureSet in r then r[key.featureSet] else FeatureSetEntry(Share(0, 0), []);
    r[key.featureSet := FeatureSetEntry(AddShare(entry.share, stats), entry.versions + [key.version])]
  }

  lemma {:induction false} ListNext(r: map<u32, FeatureSetEntry>, seen: map<Configuration, Stats>, key: Configuration,
                                    stats: Stats)
    requires key !in seen && ListsVersions(r, seen)
    ensures ListsVersions(PushVersion(r, key, stats), seen[key := stats])
  {
    var f := key.featureSet;
    assert key == Configuration(f, key.version);
    assert forall v :: Configuration(f, v) in seen ==> Configuration(f, v).featureSet in r;
  }

  lemma {:induction false} PushAdds(r: map<u32, FeatureSetEntry>, key: Configuration, stats: Stats)
    ensures SharesOf(PushVersion(r, key, stats)) == Added(SharesOf(r), key.featureSet, stats)
  {
  }

  /** The order of versions. */
  ghost predicate TotalOrder(le: (string, string) -> bool) {
    && (forall a, b :: le(a, b) || le(b, a))
    && (forall a, b, c :: le(a, b) && le(b, c) ==> le(a, c))
  }

  ghost predicate Descending(versions: seq<string>, le: (string, string) -> bool) {
    forall i, j :: 0 <= i < j < |versions| ==> le(versions[j], versions[i])
  }

  function Insert(v: string, versions: seq<string>, le: (string, string) -> bool): seq<string> {
    if versions == [] || le(versions[0], v) then [v] + versions
    else [versions[0]] + Insert(v, versions[1..], le)
  }

  function SortDescending(versions: seq<string>, le: (string, string) -> bool): seq<string> {
    if versions == [] then [] else Insert(versions[0], SortDescending(versions[1..], le), le)
  }

  lemma {:induction false} InsertKeeps(v: string, versions: seq<string>, le: (string, string) -> bool)
    ensures multiset(Insert(v, versions, le)) == multiset(versions) + multiset{v}
    decreases |versions|
  {
    if versions != [] && !le(versions[0], v) {
      InsertKeeps(v, versions[1..], le);
      assert versions == [versions[0]] + versions[1..];
    }
  }

  lemma {:induction false} InsertRight(v: string, versions: seq<string>, le: (string, string) -> bool)
    requires TotalOrder(le) && Descending(versions, le)
    ensures Descending(Insert(v, versions, le), le)
    decreases |versions|
  {
    if versions != [] && !le(versions[0], v) {
      var first, rest := versions[0], Insert(v, versions[1..], le);
      InsertRight(v, versions[1..], le);
      InsertKeeps(v, versions[1..], le);
      forall i | 0 <= i < |rest| ensures le(rest[i], first) {
        assert rest[i] in multiset(rest);
      }
    } else {
      forall j | 0 <= j < |versions| ensures le(versions[j], v) {
        assert j == 0 || le(versions[j], versions[0]);
      }
    }
  }

  lemma {:induction false} SortRight(versions: seq<string>, le: (string, string) -> bool)
    requires TotalOrder(le)
    ensures Descending(SortDescending(versions, le), le)
    ensures multiset(SortDescending(versions, le)) == multiset(versions)
    decreases |versions|
  {
    if versions != [] {
      SortRight(versions[1..], le);
      InsertRight(versions[0], SortDescending(versions[1..], le), le);
      InsertKeeps(versions[0], SortDescending(versions[1..], le), le);
      assert versions == [versions[0]] + versions[1..];
    }
  }

  lemma {:induction false} RepeatsCount(versions: seq<string>)
    ensures NoRepeats(versions) <==> forall v :: multiset(versions)[v] <= 1
    decreases |versions|
  {
    if versions != [] {
      var first, rest := versions[0], versions[1..];
      assert versions == [first] + rest;
      RepeatsCount(rest);
      assert NoRepeats(versions) <==> NoRepeats(rest) && first !in rest by {
        assert forall i :: 0 < i < |versions| ==> versions[i] == rest[i - 1];
        assert forall i :: 0 <= i < |rest| ==> rest[i] == versions[i + 1];
      }
      assert forall v :: multiset(versions)[v] == multiset(rest)[v] + (if v == first then 1 else 0);
      assert first in rest <==> multiset(rest)[first] >= 1;
    }
  }

  /** Sorting the lists in the end changes their order only. */
  function SortAll(r: map<u32, FeatureSetEntry>, le: (string, string) -> bool): map<u32, FeatureSetEntry> {
    map f | f in r :: r[f].(versions := SortDescending(r[f].versions, le))
  }

  lemma {:induction false} SortedStaysRight(r: map<u32, FeatureSetEntry>, stats: map<Configuration, Stats>,
                                            le: (string, string) -> bool)
    requires TotalOrder(le) && FeatureSetsRight(r, stats)
    ensures FeatureSetsRight(SortAll(r, le), stats)
    ensures forall f :: f in SortAll(r, le) ==> Descending(SortAll(r, le)[f].versions, le)
  {
    var sorted := SortAll(r, le);
    assert SharesOf(sorted) == SharesOf(r);
    forall f | f in r
      ensures Descending(sorted[f].versions, le) && NoRepeats(sorted[f].versions)
      ensures forall v :: v in sorted[f].versions <==> v in r[f].versions
    {
      SortRight(r[f].versions, le);
      RepeatsCount(r[f].versions);
      RepeatsCount(sorted[f].versions);
      assert forall v :: v in sorted[f].versions <==> v in multiset(sorted[f].versions);
      assert forall v :: v in r[f].versions <==> v in multiset(r[f].versions);
    }
  }

  ghost predicate FeatureSetsRight(r: map<u32, FeatureSetEntry>, stats: map<Configuration, Stats>) {
    Aggregates(SharesOf(r), stats, FeatureSetOf()) && ListsVersions(r, stats)
  }

  lemma {:induction false} FeatureSetNext(r: map<u32, FeatureSetEntry>, seen: map<Configuration, Stats>,
                                          key: Configuration, stats: Stats)
    requires key !in seen && FeatureSetsRight(r, seen)
    ensures FeatureSetsRight(PushVersion(r, key, stats), seen[key := stats])
  {
    ListNext(r, seen, key, stats);
    PushAdds(r, key, stats);
    AggregateNext(SharesOf(r), seen, FeatureSetOf(), key, stats);
  }

  /** The loop by feature set, which also collects the versions and in the end sorts
      them, the latest first. */
  method AggregateByFeatureSet(stats: map<Configuration, Stats>, le: (string, string) -> bool)
    returns (r: map<u32, FeatureSetEntry>)
    requires TotalOrder(le)
    ensures FeatureSetsRight(r, stats)
    ensures forall f :: f in r ==> Descending(r[f].versions, le)
  {
    r := map[];
    var todo := stats.Keys;
    ghost var seen: map<Configuration, Stats> := map[];
    NothingAggregated(FeatureSetOf());
    assert SharesOf(r) == map[];
    while todo != {}
      invariant Visited(stats, todo, seen)
      invariant FeatureSetsRight(r, seen)
      decreases todo
    {
      var key :| key in todo;
      VisitOne(stats, todo, seen, key);
      FeatureSetNext(r, seen, key, stats[key]);
      r := PushVersion(r, key, stats[key]);
      seen, todo := seen[key := stats[key]], todo - {key};
    }
    assert seen == stats;
    SortedStaysRight(r, stats, le);
    r := SortAll(r, le);
  }

  /** Both aggregations of the same statistics have the same totals. */
  lemma {:induction false} AggregationsAgree<G(!new), H(!new)>(stats: map<Configuration, Stats>, a: map<G, Share>,
                                                               p: Configuration -> G, b: map<H, Share>,
                                                               q: Configuration -> H)
    requires Aggregates(a, stats, p) && Aggregates(b, stats, q)
    ensures Sum(StakesOf(a)) == Sum(StakesOf(b)) == Sum(Stakes(stats))
    ensures Sum(RpcsOf(a)) == Sum(RpcsOf(b)) == Sum(Rpcs(stats))
  {
    AggregatesConserve(a, stats, p);
    AggregatesConserve(b, stats, q);
  }

  lemma {:induction false} AggregatesConserve<G(!new)>(shares: map<G, Share>, stats: map<Configuration, Stats>,
                                                       p: Configuration -> G)
    requires Aggregates(shares, stats, p)
    ensures Sum(StakesOf(shares)) == Sum(Stakes(stats)) && Sum(RpcsOf(shares)) == Sum(Rpcs(stats))
  {
    AggregatesRegroup(shares, stats, p);
    RegroupingConserves(Stakes(stats), p);
    RegroupingConserves(Rpcs(stats), p);
  }

  /** Activation is allowed when the tool's own feature set has at least 95% of both. */
  predicate GateOpen(entries: map<u32, FeatureSetEntry>, tool: u32, totalStake: nat, totalRpc: nat) {
    && tool in entries
    && totalStake != 0 && 95 * totalStake <= 100 * entries[tool].share.stake
    && totalRpc != 0 && 95 * totalRpc <= 100 * entries[tool].share.rpcNodes
  }

  /** No feature set's bucket exceeds the real stake behind it. */
  lemma {:induction false} BucketIsReal(nodes: seq<Node>, votes: seq<Vote>, stats: map<Configuration, Stats>,
                                        kept: map<Configuration, Stats>, featureSet: u32)
    requires UniqueNodes(nodes) && Collected(stats, StakeEntries(nodes, votes), RpcEntries(nodes))
    requires forall key :: key in kept ==> key in stats && kept[key] == stats[key]
    ensures GroupShare(kept, FeatureSetOf(), featureSet).stake <= RealStake(nodes, votes, ByFeatureSet(featureSet))
  {
    var part := Part(Stakes(kept), FeatureSetOf(), featureSet);
    var entries := StakeEntries(nodes, votes);
    forall key | key in part ensures part[key] == WeightOf(entries, key) {
      assert Get(stats, key).stake == WeightOf(entries, key);
    }
    assert part == WeightMap(part.Keys, entries);
    GroupsConserveOn(part.Keys, entries);
    OnFeatureSet(part.Keys, nodes, votes, featureSet);
    ShareIsReal(nodes, votes, ByFeatureSet(featureSet));
  }

  lemma {:induction false} GateShare(entries: map<u32, FeatureSetEntry>, kept: map<Configuration, Stats>, tool: u32)
    requires FeatureSetsRight(entries, kept)
    ensures GroupShare(kept, FeatureSetOf(), tool) == if tool in entries then entries[tool].share else Share(0, 0)
  {
    assert GetShare(SharesOf(entries), tool) == GroupShare(kept, FeatureSetOf(), tool);
  }

  lemma {:induction false} EntryIsReal(nodes: seq<Node>, votes: seq<Vote>, stats: map<Configuration, Stats>,
                                       kept: map<Configuration, Stats>, entries: map<u32, FeatureSetEntry>, f: u32)
    requires UniqueNodes(nodes) && Collected(stats, StakeEntries(nodes, votes), RpcEntries(nodes))
    requires forall key :: key in kept ==> key in stats && kept[key] == stats[key]
    requires FeatureSetsRight(entries, kept)
    ensures f in entries ==> entries[f].share.stake <= RealStake(nodes, votes, ByFeatureSet(f))
  {
    BucketIsReal(nodes, votes, stats, kept, f);
    GateShare(entries, kept, f);
  }

  /** An open gate means what it is there for: at least 95% of the real active stake is
      on nodes that report the tool's feature set.  So no bucket exceeds the total, and
      the gate cannot be open for two feature sets. */
  lemma {:induction false} GateIsSound(nodes: seq<Node>, current: seq<Vote>, delinquent: seq<Vote>,
                                       stats: map<Configuration, Stats>, entries: map<u32, FeatureSetEntry>,
                                       tool: u32, other: u32)
    requires UniqueNodes(nodes) && Collected(stats, StakeEntries(nodes, current), RpcEntries(nodes))
    requires
      var totalStake, totalRpc := TotalStake(current) + TotalStake(delinquent), Total(RpcEntries(nodes));
      FeatureSetsRight(entries, KeptStats(stats, totalStake, totalRpc))
    ensures
      var totalStake, totalRpc := TotalStake(current) + TotalStake(delinquent), Total(RpcEntries(nodes));
      var behind := RealStake(nodes, current, ByFeatureSet(tool));
      && (tool in entries ==> entries[tool].share.stake <= behind) && behind <= totalStake
      && (GateOpen(entries, tool, totalStake, totalRpc) ==> 95 * totalStake <= 100 * behind)
      && (GateOpen(entries, tool, totalStake, totalRpc) && GateOpen(entries, other, totalStake, totalRpc) ==>
            tool == other)
  {
    var kept := KeptStats(stats, TotalStake(current) + TotalStake(delinquent), Total(RpcEntries(nodes)));
    EntryIsReal(nodes, current, stats, kept, entries, tool);
    EntryIsReal(nodes, current, stats, kept, entries, other);
    RealBelowTotal(nodes, current, ByFeatureSet(tool));
    if tool != other {
      TwoFeatureSets(nodes, current, tool, other);
    }
  }

  ghost predicate AtLeast(part: nat, total: nat, percent: real) { total != 0 && Percent(part, total) >= percent }

  lemma {:induction false} KeptIsPercent(stake: nat, rpcNodes: nat, totalStake: nat, totalRpc: nat)
    ensures Kept(stake, rpcNodes, totalStake, totalRpc) <==>
              AtLeast(stake, totalStake, 0.001) || AtLeast(rpcNodes, totalRpc, 0.001)
  {
    assert 0.001 == 1 as real / 1000 as real;
    if totalStake != 0 {
      PercentAtLeast(stake, totalStake, 1, 1000);
    }
    if totalRpc != 0 {
      PercentAtLeast(rpcNodes, totalRpc, 1, 1000);
    }
  }

  /** The configurations of a feature set that are not dropped: those with at least
      0.001% of the stake or of the RPC nodes. */
  ghost function KeptKeys(nodes: seq<Node>, votes: seq<Vote>, totalStake: nat, totalRpc: nat, featureSet: u32)
    : set<Configuration>
  {
    set key | key in KeysOf(StakeEntries(nodes, votes)) && key.featureSet == featureSet
              && (|| AtLeast(WeightOf(StakeEntries(nodes, votes), key), totalStake, 0.001)
                  || AtLeast(WeightOf(RpcEntries(nodes), key), totalRpc, 0.001))
  }

  /** What they have together, straight from the nodes and votes. */
  ghost function KeptShare(nodes: seq<Node>, votes: seq<Vote>, totalStake: nat, totalRpc: nat, featureSet: u32): Share {
    var keys := KeptKeys(nodes, votes, totalStake, totalRpc, featureSet);
    Share(Sum(WeightMap(keys, StakeEntries(nodes, votes))), Sum(WeightMap(keys, RpcEntries(nodes))))
  }

  lemma {:induction false} KeptShareIs(nodes: seq<Node>, votes: seq<Vote>, stats: map<Configuration, Stats>,
                                       totalStake: nat, totalRpc: nat, featureSet: u32)
    requires Collected(stats, StakeEntries(nodes, votes), RpcEntries(nodes))
    ensures GroupShare(KeptStats(stats, totalStake, totalRpc), FeatureSetOf(), featureSet) ==
              KeptShare(nodes, votes, totalStake, totalRpc, featureSet)
  {
    var kept := KeptStats(stats, totalStake, totalRpc);
    var keys := KeptKeys(nodes, votes, totalStake, totalRpc, featureSet);
    forall key | key in stats
      ensures stats[key].stake == WeightOf(StakeEntries(nodes, votes), key)
      ensures stats[key].rpcNodes == WeightOf(RpcEntries(nodes), key)
    {
      assert Get(stats, key) == stats[key];
    }
    forall key | key in stats
      ensures Kept(stats[key].stake, stats[key].rpcNodes, totalStake, totalRpc) <==>
                || AtLeast(WeightOf(StakeEntries(nodes, votes), key), totalStake, 0.001)
                || AtLeast(WeightOf(RpcEntries(nodes), key), totalRpc, 0.001)
    {
      KeptIsPercent(stats[key].stake, stats[key].rpcNodes, totalStake, totalRpc);
    }
    assert Part(Stakes(kept), FeatureSetOf(), featureSet) == WeightMap(keys, StakeEntries(nodes, votes));
    assert Part(Rpcs(kept), FeatureSetOf(), featureSet) == WeightMap(keys, RpcEntries(nodes));
  }

  // What dropping small configurations loses

  /** The configurations under which a feature set is reported. */
  ghost function Configurations(nodes: seq<Node>, featureSet: u32): set<Configuration> {
    set n | n in nodes && ByFeatureSet(featureSet)(n) :: ConfigurationOf(n)
  }

  /** The RPC nodes that report it. */
  function RpcShare(nodes: seq<Node>, keep: Selection): nat {
    if nodes == [] then 0
    else
      var last := nodes[|nodes| - 1];
      RpcShare(nodes[..|nodes| - 1], keep) + (if keep(last) && last.isRpc then 1 else 0)
  }

  lemma {:induction false} AllOnFeatureSet(keys: set<Configuration>, nodes: seq<Node>, votes: seq<Vote>,
                                           featureSet: u32)
    requires forall key :: key in keys ==> key.featureSet == featureSet
    requires Configurations(nodes, featureSet) <= keys
    ensures TotalOn(keys, StakeEntries(nodes, votes)) == NodesShare(nodes, votes, ByFeatureSet(featureSet))
    ensures TotalOn(keys, RpcEntries(nodes)) == RpcShare(nodes, ByFeatureSet(featureSet))
  {
    if nodes != [] {
      var n := |nodes| - 1;
      assert nodes[n] in nodes;
      assert forall node :: node in nodes[..n] ==> node in nodes;
      AllOnFeatureSet(keys, nodes[..n], votes, featureSet);
      assert StakeEntries(nodes, votes)[..n] == StakeEntries(nodes[..n], votes);
      assert RpcEntries(nodes)[..n] == RpcEntries(nodes[..n]);
    }
  }

  lemma {:induction false} TotalSplits(a: set<Configuration>, b: set<Configuration>, entries: seq<Entry<Configuration>>)
    requires a !! b
    ensures TotalOn(a + b, entries) == TotalOn(a, entries) + TotalOn(b, entries)
    decreases |entries|
  {
    if entries != [] {
      TotalSplits(a, b, entries[..|entries| - 1]);
    }
  }

  /** Small figures stay small together. */
  lemma {:induction false} SmallTogether(m: map<Configuration, nat>, total: nat)
    requires forall key :: key in m ==> 100_000 * m[key] <= total
    ensures 100_000 * Sum(m) <= |m| * total
    decreases |m|
  {
    if m != map[] {
      var key :| key in m;
      SumTakes(m, key);
      assert (m - {key}).Keys == m.Keys - {key};
      SmallTogether(m - {key}, total);
      OneMoreSmall(|m| - 1, total, m[key], Sum(m - {key}));
    }
  }

  lemma {:induction false} OneMoreSmall(n: nat, total: nat, v: nat, rest: nat)
    requires 100_000 * v <= total && 100_000 * rest <= n * total
    ensures 100_000 * (v + rest) <= (n + 1) * total
  {
    assert (n + 1) * total == n * total + total;
  }

  /** What is kept falls short of what is there by less than a thousandth of a percent of
      the total for each configuration. */
  lemma {:induction false} LittleIsDropped(nodes: seq<Node>, votes: seq<Vote>, totalStake: nat, totalRpc: nat, f: u32)
    requires totalStake != 0 && totalRpc != 0
    ensures
      var share := KeptShare(nodes, votes, totalStake, totalRpc, f);
      var k := |Configurations(nodes, f)|;
      && 100_000 * NodesShare(nodes, votes, ByFeatureSet(f)) <= 100_000 * share.stake + k * totalStake
      && 100_000 * RpcShare(nodes, ByFeatureSet(f)) <= 100_000 * share.rpcNodes + k * totalRpc
  {
    var all, kept := Configurations(nodes, f), KeptKeys(nodes, votes, totalStake, totalRpc, f);
    var stakes, rpcs := StakeEntries(nodes, votes), RpcEntries(nodes);
    KeysAreConfigurations(nodes, votes, f);
    var dropped := all - kept;
    assert all == kept + dropped;
    forall key | key in dropped
      ensures 100_000 * WeightOf(stakes, key) <= totalStake && 100_000 * WeightOf(rpcs, key) <= totalRpc
    {
      KeptIsPercent(WeightOf(stakes, key), WeightOf(rpcs, key), totalStake, totalRpc);
    }
    AllOnFeatureSet(all, nodes, votes, f);
    DroppedLittle(kept, dropped, stakes, totalStake);
    DroppedLittle(kept, dropped, rpcs, totalRpc);
    FewerTimes(dropped, all, totalStake);
    FewerTimes(dropped, all, totalRpc);
  }

  lemma {:induction false} FewerTimes(a: set<Configuration>, b: set<Configuration>, total: nat)
    requires a <= b
    ensures |a| * total <= |b| * total
  {
    assert b == a + (b - a);
  }

  lemma {:induction false} DroppedLittle(kept: set<Configuration>, dropped: set<Configuration>,
                                         entries: seq<Entry<Configuration>>, total: nat)
    requires kept !! dropped && forall key :: key in dropped ==> 100_000 * WeightOf(entries, key) <= total
    ensures 100_000 * TotalOn(kept + dropped, entries) <=
              100_000 * Sum(WeightMap(kept, entries)) + |dropped| * total
  {
    TotalSplits(kept, dropped, entries);
    GroupsConserveOn(kept, entries);
    GroupsConserveOn(dropped, entries);
    SmallTogether(WeightMap(dropped, entries), total);
    assert WeightMap(dropped, entries).Keys == dropped;
  }

  lemma {:induction false} KeysAreConfigurations(nodes: seq<Node>, votes: seq<Vote>, f: u32)
    ensures forall key :: key in Configurations(nodes, f) <==>
              key in KeysOf(StakeEntries(nodes, votes)) && key.featureSet == f
  {
    var entries := StakeEntries(nodes, votes);
    forall key | key in Configurations(nodes, f) ensures key in KeysOf(entries) && key.featureSet == f {
      var n :| n in nodes && ByFeatureSet(f)(n) && ConfigurationOf(n) == key;
      var i :| 0 <= i < |nodes| && nodes[i] == n;
      assert entries[i] in entries && entries[i].key == key;
    }
    forall key | key in KeysOf(entries) && key.featureSet == f ensures key in Configurations(nodes, f) {
      var e :| e in entries && e.key == key;
      var i :| 0 <= i < |entries| && entries[i] == e;
      assert nodes[i] in nodes && ConfigurationOf(nodes[i]) == key;
    }
  }

  lemma {:induction false} GateOpensExactly(nodes: seq<Node>, votes: seq<Vote>, stats: map<Configuration, Stats>,
                                            entries: map<u32, FeatureSetEntry>, totalStake: nat, totalRpc: nat,
                                            tool: u32)
    requires Collected(stats, StakeEntries(nodes, votes), RpcEntries(nodes))
    requires FeatureSetsRight(entries, KeptStats(stats, totalStake, totalRpc))
    ensures
      var share := KeptShare(nodes, votes, totalStake, totalRpc, tool);
      GateOpen(entries, tool, totalStake, totalRpc) <==>
        AtLeast(share.stake, totalStake, 95.0) && AtLeast(share.rpcNodes, totalRpc, 95.0)
  {
    KeptShareIs(nodes, votes, stats, totalStake, totalRpc, tool);
    GateShare(entries, KeptStats(stats, totalStake, totalRpc), tool);
    AtLeast95(KeptShare(nodes, votes, totalStake, totalRpc, tool).stake, totalStake);
    AtLeast95(KeptShare(nodes, votes, totalStake, totalRpc, tool).rpcNodes, totalRpc);
  }

  lemma {:induction false} AtLeast95(part: nat, total: nat)
    ensures AtLeast(part, total, 95.0) <==> total != 0 && 95 * total <= 100 * part
  {
    if total != 0 {
      PercentAtLeast(part, total, 95, 1);
    }
  }

  /** A feature set with 95% and the little that may be dropped has 95% of what is kept. */
  lemma {:induction false} EnoughIsKept(nodes: seq<Node>, votes: seq<Vote>, totalStake: nat, totalRpc: nat, tool: u32)
    requires totalStake != 0 && totalRpc != 0
    requires
      var k := |Configurations(nodes, tool)|;
      && 95_000 * totalStake + k * totalStake <= 100_000 * NodesShare(nodes, votes, ByFeatureSet(tool))
      && 95_000 * totalRpc + k * totalRpc <= 100_000 * RpcShare(nodes, ByFeatureSet(tool))
    ensures
      var share := KeptShare(nodes, votes, totalStake, totalRpc, tool);
      AtLeast(share.stake, totalStake, 95.0) && AtLeast(share.rpcNodes, totalRpc, 95.0)
  {
    LittleIsDropped(nodes, votes, totalStake, totalRpc, tool);
    AtLeast95(KeptShare(nodes, votes, totalStake, totalRpc, tool).stake, totalStake);
    AtLeast95(KeptShare(nodes, votes, totalStake, totalRpc, tool).rpcNodes, totalRpc);
  }

  /** The whole gate, from the cluster's replies to the decision: it opens exactly if
      what is kept for the tool's feature set is at least 95% of the active stake and of
      the RPC nodes, and then at least 95% of the real stake reports that feature set. */
  method ActivationAllowed(nodes: seq<Node>, current: seq<Vote>, delinquent: seq<Vote>, tool: u32,
                           le: (string, string) -> bool)
    returns (allowed: bool)
    requires UniqueNodes(nodes) && |nodes| <= U32_MAX && TotalOrder(le)
    requires TotalStake(current) + TotalStake(delinquent) <= U64_MAX
    ensures
      var totalStake, totalRpc := TotalStake(current) + TotalStake(delinquent), Total(RpcEntries(nodes));
      var share := KeptShare(nodes, current, totalStake, totalRpc, tool);
      && (allowed <==> AtLeast(share.stake, totalStake, 95.0) && AtLeast(share.rpcNodes, totalRpc, 95.0))
      && (allowed ==> 95 * totalStake <= 100 * RealStake(nodes, current, ByFeatureSet(tool)))
    ensures
      var totalStake, totalRpc := TotalStake(current) + TotalStake(delinquent), Total(RpcEntries(nodes));
      var stake, rpcNodes := NodesShare(nodes, current, ByFeatureSet(tool)), RpcShare(nodes, ByFeatureSet(tool));
      var k := |Configurations(nodes, tool)|;
      && totalStake != 0 && 95_000 * totalStake + k * totalStake <= 100_000 * stake
      && totalRpc != 0 && 95_000 * totalRpc + k * totalRpc <= 100_000 * rpcNodes ==>
        allowed
  {
    var voteStakes, totalStake := CollectVotes(current, delinquent);
    var stats, totalRpc := CollectStats(nodes, current, voteStakes);
    var entries := AggregateByFeatureSet(KeptStats(stats, totalStake, totalRpc), le);
    GateIsSound(nodes, current, delinquent, stats, entries, tool, tool);
    GateOpensExactly(nodes, current, stats, entries, totalStake, totalRpc, tool);
    ghost var stake, rpcNodes := NodesShare(nodes, current, ByFeatureSet(tool)), RpcShare(nodes, ByFeatureSet(tool));
    ghost var k := |Configurations(nodes, tool)|;
    if && totalStake != 0 && 95_000 * totalStake + k * totalStake <= 100_000 * stake
       && totalRpc != 0 && 95_000 * totalRpc + k * totalRpc <= 100_000 * rpcNodes {
      EnoughIsKept(nodes, current, totalStake, totalRpc, tool);
    }
    allowed := GateOpen(entries, tool, totalStake, totalRpc);
  }
}
