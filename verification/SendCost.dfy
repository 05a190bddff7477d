/** What an upload really costs: the parallel sender may sign a write again when its
    blockhash expires, and every execution is paid for. */
module SendCost {
  import opened Prelude
  import opened LoaderState
  import opened ChunkPlan
  import opened Wire
  import opened ComputeBudget
  import opened Fee
  import opened Tally
  import Messages = WriteMessages
  import Sender = ParallelSend

  // ----------------------------------------------------------------------
  // The write messages of a plan are pairwise different

  /** What is sent for a plan: each message carries its own planned write. */
  ghost predicate SentFor(sent: seq<Message>, plan: seq<Write>) {
    && |sent| == |plan|
    && forall j :: 0 <= j < |sent| ==>
         sent[j].instructions != [] && sent[j].instructions[0].data == WriteData(plan[j].offset, plan[j].bytes)
  }

  lemma {:induction false} SentAreDistinct(sent: seq<Message>, plan: seq<Write>)
    requires SentFor(sent, plan) && Increasing(plan)
    requires forall i :: 0 <= i < |plan| ==> |plan[i].bytes| <= U64_MAX
    ensures Sender.Distinct(sent)
  {
    forall i, j | 0 <= i < j < |sent| ensures sent[i] != sent[j] {
      WriteRoundTrip(plan[i].offset, plan[i].bytes);
      WriteRoundTrip(plan[j].offset, plan[j].bytes);
    }
  }

  // ----------------------------------------------------------------------
  // What a run of the sender costs

  /** The fee of every executed transaction; signing with another blockhash does not
      change it. */
  ghost function Paid(end: Sender.State<Message>, rules: FeeRules): map<Sender.Signature<Message>, nat> {
    map g | g in end.executed :: Messages.FeeOrZero(g.message, rules)
  }

  lemma {:induction false} CappedMap<K>(m: map<K, nat>, cap: nat)
    requires forall k :: k in m ==> m[k] <= cap
    ensures Sum(m) <= cap * |m|
    decreases |m|
  {
    if m != map[] {
      var k :| k in m;
      SumTakes(m, k);
      assert (m - {k}).Keys == m.Keys - {k};
      CappedMap(m - {k}, cap);
      Messages.OneMore(cap, |m| - 1);
    }
  }

  lemma {:induction false} MoreCapped(cap: nat, a: nat, b: nat)
    requires a <= b
    ensures cap * a <= cap * b
  {
  }

  /** In every run of the sender, on any runtime and at any commitment level, the writes
      of an upload cost at most the product the payer is checked for, once per signing
      round. */
  lemma {:induction false} RunCost(cfg: Sender.Config<Message>, steps: seq<Sender.Step<Message>>, baseline: Message,
                                   price: Option<u64>, rules: FeeRules, program: seq<byte>, buffer: seq<byte>,
                                   writes: seq<Message>, simulated: Option<u64>)
    requires Messages.IsBaseline(baseline, price, rules) && FeeOf(baseline, rules).Some?
    requires |program| <= U32_MAX + 1
    requires
      var plan := Plan(program, buffer, MaxChunkSize(baseline));
      plan.Some? && Messages.CreatedFrom(writes, baseline, plan.value)
    requires writes != [] && Messages.CarryLimit(Simulated, simulated, writes) == Ok(cfg.messages)
    requires Sender.Run(cfg, Sender.Start(), steps).Some?
    ensures
      var end := Sender.Run(cfg, Sender.Start(), steps).value;
      Sum(Paid(end, rules)) <= FeeOf(baseline, rules).value * (cfg.signingCount * |writes|)
  {
    var plan := Plan(program, buffer, MaxChunkSize(baseline)).value;
    var fee := FeeOf(baseline, rules).value;
    var end := Sender.Run(cfg, Sender.Start(), steps).value;
    CarriedDiffer(baseline, price, rules, program, buffer, writes, simulated, cfg.messages);
    Sender.InvRun(cfg, Sender.Start(), steps);
    forall g | g in end.executed ensures Paid(end, rules)[g] <= fee {
      CarriedCost(baseline, price, rules, plan, writes, simulated, cfg.messages, g.message);
    }
    CappedMap(Paid(end, rules), fee);
    assert Paid(end, rules).Keys == end.executed.Keys;
    Sender.PaidPerRound(cfg, steps);
    MoreCapped(fee, |end.executed|, cfg.signingCount * |writes|);
  }

  lemma {:induction false} CarriedDiffer(baseline: Message, price: Option<u64>, rules: FeeRules, program: seq<byte>,
                                         buffer: seq<byte>, writes: seq<Message>, simulated: Option<u64>,
                                         sent: seq<Message>)
    requires Messages.Built(baseline, 1, price, rules) && |program| <= U32_MAX + 1
    requires
      var plan := Plan(program, buffer, MaxChunkSize(baseline));
      plan.Some? && Messages.CreatedFrom(writes, baseline, plan.value)
    requires writes != [] && Messages.CarryLimit(Simulated, simulated, writes) == Ok(sent)
    ensures |sent| == |writes| && Sender.Distinct(sent)
  {
    var plan := Plan(program, buffer, MaxChunkSize(baseline)).value;
    var units := Messages.CarriedIsLimited(baseline, price, rules, plan, writes, simulated);
    forall j | 0 <= j < |plan|
      ensures sent[j].instructions != []
      ensures sent[j].instructions[0].data == WriteData(plan[j].offset, plan[j].bytes)
    {
      Messages.LimitedKeepsWrite(baseline, price, rules, plan[j], units);
      assert sent[j] == Messages.Limited(Messages.CreateMessage(baseline, plan[j]), units);
    }
    assert SentFor(sent, plan);
    PlanIncreases(program, buffer, MaxChunkSize(baseline), 0);
    forall i | 0 <= i < |plan| ensures |plan[i].bytes| <= U64_MAX {
      Messages.ChunksAreShort(program, buffer, MaxChunkSize(baseline), 0, plan[i]);
    }
    SentAreDistinct(sent, plan);
  }

  lemma {:induction false} CarriedCost(baseline: Message, price: Option<u64>, rules: FeeRules, plan: seq<Write>,
                                       writes: seq<Message>, simulated: Option<u64>, sent: seq<Message>, m: Message)
    requires Messages.Built(baseline, 1, price, rules) && FeeOf(baseline, rules).Some?
    requires Messages.CreatedFrom(writes, baseline, plan)
    requires writes != [] && Messages.CarryLimit(Simulated, simulated, writes) == Ok(sent) && m in sent
    ensures Messages.FeeOrZero(m, rules) <= FeeOf(baseline, rules).value
  {
    var units := Messages.CarriedIsLimited(baseline, price, rules, plan, writes, simulated);
    var j :| 0 <= j < |sent| && sent[j] == m;
    Messages.CreatedIsBuilt(baseline, plan[j], price, rules);
    Messages.CreatedCostsTheSame(baseline, plan[j], price, rules);
    Messages.LimitedCostsNoMore(writes[j], 1, price, rules, units);
  }

  /** The fees checked cover the fees of every run. */
  ghost predicate Covered(cfg: Sender.Config<Message>, rules: FeeRules, fee: nat) {
    forall steps: seq<Sender.Step<Message>> ::
      var end := Sender.Run(cfg, Sender.Start(), steps);
      end.Some? ==> Sum(Paid(end.value, rules)) <= fee * |cfg.messages|
  }

  lemma {:induction false} EqualMap<K>(m: map<K, nat>, v: nat)
    requires forall k :: k in m ==> m[k] == v
    ensures Sum(m) == v * |m|
    decreases |m|
  {
    if m != map[] {
      var k :| k in m;
      SumTakes(m, k);
      assert (m - {k}).Keys == m.Keys - {k};
      EqualMap(m - {k}, v);
      Messages.OneMore(v, |m| - 1);
    }
  }

  /** Paying for each message once covers every run exactly when no message is signed in
      a second round: then one may be executed, and paid for, twice. */
  lemma {:induction false} CoveredExactly(cfg: Sender.Config<Message>, rules: FeeRules, fee: nat)
    requires Sender.Distinct(cfg.messages) && 0 < fee
    requires forall m :: m in cfg.messages ==> FeeOf(m, rules) == Some(fee)
    ensures Covered(cfg, rules, fee) <==> cfg.messages == [] || cfg.signingCount <= 1
  {
    Sender.PaidOnceExactly(cfg);
    forall steps: seq<Sender.Step<Message>> | Sender.Run(cfg, Sender.Start(), steps).Some?
      ensures
        var end := Sender.Run(cfg, Sender.Start(), steps).value;
        Sum(Paid(end, rules)) <= fee * |cfg.messages| <==> |end.executed| <= |cfg.messages|
    {
      Sender.InvRun(cfg, Sender.Start(), steps);
      var end := Sender.Run(cfg, Sender.Start(), steps).value;
      EqualMap(Paid(end, rules), fee);
      assert Paid(end, rules).Keys == end.executed.Keys;
      Compare(fee, |end.executed|, |cfg.messages|);
    }
  }

  lemma {:induction false} Compare(fee: nat, a: nat, b: nat)
    requires 0 < fee
    ensures fee * a <= fee * b <==> a <= b
  {
    if b < a {
      Messages.OneMore(fee, b);
      MoreCapped(fee, b + 1, a);
    } else {
      MoreCapped(fee, a, b);
    }
  }
}
