/** The write messages of an upload as they go over the wire: how they are built
    from one baseline, that they fit packets, and that the payer check covers them. */
module WriteMessages {
  import opened Prelude
  import opened LoaderState
  import opened ChunkPlan
  import opened Wire
  import opened ComputeBudget
  import opened Fee

  function UnitPriceData(price: u64): seq<byte> { [3] + ToLittleEndian(price, 8) }

  /** The compute-budget instructions that a price and a limit setting append. */
  function BudgetData(price: Option<u64>, setting: LimitSetting): seq<seq<byte>> {
    match price
    case None => []
    case Some(p) =>
      [UnitPriceData(p)] +
      match setting
      case Default => []
      case Static(units) => [UnitLimitData(units)]
      case _ => [UnitLimitData(MAX_COMPUTE_UNIT_LIMIT)]
  }

  /** A compiled message of `lead` instructions of other programs, none of which
      verifies signatures, and the compute-budget instructions of an upload. */
  ghost predicate Built(m: Message, lead: nat, price: Option<u64>, rules: FeeRules) {
    var budget := BudgetData(price, Simulated);
    && |m.instructions| == lead + |budget| && COMPUTE_BUDGET_ID !in rules.precompiles
    && (forall j :: 0 <= j < lead ==>
          && var id := ProgramId(m, j);
             id.Some? && id.value != COMPUTE_BUDGET_ID && id.value !in rules.precompiles)
    && (forall j :: lead <= j < |m.instructions| ==> IsBudget(m, j) && m.instructions[j].data == budget[j - lead])
  }

  /** The message `calculate_max_chunk_size` measures: a write of no bytes at offset 0. */
  ghost predicate IsBaseline(m: Message, price: Option<u64>, rules: FeeRules) {
    Built(m, 1, price, rules) && m.instructions[0].data == WriteData(0, [])
  }

  function CreateMessage(baseline: Message, w: Write): Message
    requires baseline.instructions != []
  {
    WithData(baseline, 0, WriteData(w.offset, w.bytes))
  }

  /** The message with its limit replaced by a simulated one, if it has a limit. */
  function Limited(m: Message, units: u32): Message {
    match LimitIndex(m)
    case None => m
    case Some(index) => WithData(m, index, UnitLimitData(units))
  }

  lemma {:induction false} CreatedIsBuilt(baseline: Message, w: Write, price: Option<u64>, rules: FeeRules)
    requires Built(baseline, 1, price, rules)
    ensures Built(CreateMessage(baseline, w), 1, price, rules)
    ensures SameShape(CreateMessage(baseline, w), baseline, rules)
  {
    var m := CreateMessage(baseline, w);
    assert forall j :: 0 <= j < |m.instructions| ==> ProgramId(m, j) == ProgramId(baseline, j);
    assert forall j :: 1 <= j < |m.instructions| ==> m.instructions[j] == baseline.instructions[j];
  }

  /** With a price, the limit is the last instruction and asks for the maximum. */
  lemma {:induction false} BuiltLimit(m: Message, lead: nat, price: Option<u64>, rules: FeeRules)
    requires Built(m, lead, price, rules)
    ensures LimitIndex(m) == if price.None? then None else Some(lead + 1)
    ensures price.Some? ==> ParseBudget(m.instructions[lead + 1].data) == Some(UnitLimit(MAX_COMPUTE_UNIT_LIMIT))
  {
    assert forall j :: 0 <= j < lead ==> !IsUnitLimit(m, j);
    if price.Some? {
      assert m.instructions[lead].data == UnitPriceData(price.value);
      assert !IsUnitLimit(m, lead);
      assert m.instructions[lead + 1].data == BudgetData(price, Simulated)[1];
      UnitLimitRoundTrip(MAX_COMPUTE_UNIT_LIMIT);
      assert IsUnitLimit(m, lead + 1);
    }
  }

  lemma {:induction false} ChunksAreShort(program: seq<byte>, buffer: seq<byte>, size: nat, offset: nat, w: Write)
    requires 0 < size && |program| <= |buffer| && w in PlanFrom(program, buffer, size, offset)
    ensures |w.bytes| <= size
    decreases |program| - offset
  {
    if w == ChunkWrite(program, size, offset) {
    } else {
      assert w in PlanFrom(program, buffer, size, offset + size) by { PlanSplits(program, buffer, size, offset, w); }
      ChunksAreShort(program, buffer, size, offset + size, w);
    }
  }

  ghost predicate CreatedFrom(writes: seq<Message>, baseline: Message, plan: seq<Write>) {
    && baseline.instructions != [] && |writes| == |plan|
    && forall i :: 0 <= i < |plan| ==> writes[i] == CreateMessage(baseline, plan[i])
  }

  datatype CarryError = SimulationFailed | NotABudgetInstruction

  /** The first write is simulated and the limit found for it carried over to all of
      them, at the index it has in the first; anything but a compute-budget instruction
      there is a panic. */
  function CarryLimit(setting: LimitSetting, simulated: Option<u64>, writes: seq<Message>)
    : Result<seq<Message>, CarryError>
    requires writes != []
  {
    match SimulateAndUpdate(setting, simulated, writes[0])
    case Err(_) => Err(SimulationFailed)
    case Ok((update, first)) =>
      match update
      case UpdatedIndex(index) =>
        var data := if index < |first.instructions| then first.instructions[index].data else [];
        (match Overwritten(writes, index, data)
         case None => Err(NotABudgetInstruction)
         case Some(patched) => Ok(patched))
      case _ => Ok(writes)
  }

  /** For the writes of one upload the assertion in the loop never fires: unless the
      simulation fails, every message gets its own limit replaced by the one found. */
  lemma {:induction false} CarriedIsLimited(baseline: Message, price: Option<u64>, rules: FeeRules, plan: seq<Write>,
                                            writes: seq<Message>, simulated: Option<u64>)
    returns (units: u32)
    requires Built(baseline, 1, price, rules) && CreatedFrom(writes, baseline, plan) && writes != []
    ensures
      match CarryLimit(Simulated, simulated, writes)
      case Err(e) =>
        e.SimulationFailed? && price.Some? && (simulated.None? || U32_MAX < simulated.value)
      case Ok(sent) =>
        && |sent| == |writes| && (price.Some? ==> simulated == Some(units))
        && forall j :: 0 <= j < |writes| ==> sent[j] == Limited(writes[j], units)
  {
    units := if simulated.Some? && simulated.value <= U32_MAX then simulated.value else 0;
    forall j | 0 <= j < |writes|
      ensures LimitIndex(writes[j]) == (if price.None? then None else Some(2))
      ensures price.Some? ==> IsBudget(writes[j], 2)
    {
      CreatedIsBuilt(baseline, plan[j], price, rules);
      BuiltLimit(writes[j], 1, price, rules);
    }
  }

  /** Every planned write fits one packet, as created and as sent, and is sent with its
      own offset and bytes. */
  lemma {:induction false} PlannedWritesFit(baseline: Message, price: Option<u64>, rules: FeeRules, program: seq<byte>,
                                            buffer: seq<byte>, writes: seq<Message>, simulated: Option<u64>,
                                            signatures: seq<Signature64>, j: nat)
    requires IsBaseline(baseline, price, rules) && FullySigned(signatures, baseline)
    requires
      var plan := Plan(program, buffer, MaxChunkSize(baseline));
      plan.Some? && CreatedFrom(writes, baseline, plan.value)
    requires j < |writes| && CarryLimit(Simulated, simulated, writes).Ok?
    ensures
      var w := Plan(program, buffer, MaxChunkSize(baseline)).value[j];
      var sent := CarryLimit(Simulated, simulated, writes).value;
      && |sent| == |writes| && sent[j].instructions != []
      && |EncodeTransaction(signatures, writes[j])| <= PACKET_DATA_SIZE
      && |EncodeTransaction(signatures, sent[j])| <= PACKET_DATA_SIZE
      && sent[j].instructions[0].data == WriteData(w.offset, w.bytes)
  {
    var plan := Plan(program, buffer, MaxChunkSize(baseline)).value;
    var units := CarriedIsLimited(baseline, price, rules, plan, writes, simulated);
    LimitedWriteFits(baseline, price, rules, program, buffer, plan[j], units, signatures);
  }

  lemma {:induction false} LimitedWriteFits(baseline: Message, price: Option<u64>, rules: FeeRules, program: seq<byte>,
                                            buffer: seq<byte>, w: Write, units: u32, signatures: seq<Signature64>)
    requires IsBaseline(baseline, price, rules) && FullySigned(signatures, baseline)
    requires
      var plan := Plan(program, buffer, MaxChunkSize(baseline));
      plan.Some? && w in plan.value
    ensures
      var m := CreateMessage(baseline, w);
      && |EncodeTransaction(signatures, m)| <= PACKET_DATA_SIZE
      && |EncodeTransaction(signatures, Limited(m, units))| <= PACKET_DATA_SIZE
      && Limited(m, units).instructions != []
      && Limited(m, units).instructions[0].data == WriteData(w.offset, w.bytes)
  {
    ChunksAreShort(program, buffer, MaxChunkSize(baseline), 0, w);
    WritesFitPackets(baseline, 0, w.offset, w.bytes, signatures);
    CreatedIsBuilt(baseline, w, price, rules);
    LimitedNoLonger(CreateMessage(baseline, w), price, rules, units, signatures);
  }

  lemma {:induction false} LimitedKeepsWrite(baseline: Message, price: Option<u64>, rules: FeeRules, w: Write,
                                             units: u32)
    requires Built(baseline, 1, price, rules)
    ensures
      var m := Limited(CreateMessage(baseline, w), units);
      m.instructions != [] && m.instructions[0].data == WriteData(w.offset, w.bytes)
  {
    CreatedIsBuilt(baseline, w, price, rules);
    LimitedNoLonger(CreateMessage(baseline, w), price, rules, units, []);
  }

  /** Replacing the limit of a message with one leading instruction keeps that
      instruction and does not lengthen the transaction. */
  lemma {:induction false} LimitedNoLonger(m: Message, price: Option<u64>, rules: FeeRules, units: u32,
                                           signatures: seq<Signature64>)
    requires Built(m, 1, price, rules)
    ensures |EncodeTransaction(signatures, Limited(m, units))| <= |EncodeTransaction(signatures, m)|
    ensures Limited(m, units).instructions != [] && Limited(m, units).instructions[0] == m.instructions[0]
  {
    BuiltLimit(m, 1, price, rules);
    if price.Some? {
      OverwriteKeepsShape(m, 2, units, signatures);
    }
  }

  // ----------------------------------------------------------------------
  // The payer check

  function AddUp(fees: seq<nat>): nat {
    if fees == [] then 0 else AddUp(fees[..|fees| - 1]) + fees[|fees| - 1]
  }

  ghost predicate AllHaveFees(messages: seq<Message>, rules: FeeRules) {
    forall i :: 0 <= i < |messages| ==> FeeOf(messages[i], rules).Some?
  }

  function Fees(messages: seq<Message>, rules: FeeRules): (fees: seq<nat>)
    requires AllHaveFees(messages, rules)
    ensures |fees| == |messages|
    ensures forall i :: 0 <= i < |messages| ==> fees[i] == FeeOf(messages[i], rules).value
  {
    seq(|messages|, i requires 0 <= i < |messages| && AllHaveFees(messages, rules) => FeeOf(messages[i], rules).value)
  }

  /** `fee` of `check_payer` without a final message: the first write's fee counts for all. */
  function EstimatedFee(initial: Option<Message>, writes: seq<Message>, rules: FeeRules): Option<u64>
    requires |writes| <= U64_MAX
  {
    var first := FeeOrNone(initial, rules);
    var write := if writes == [] then Some(0) else FeeOf(writes[0], rules);
    if first.Some? && write.Some? then Some(SatAdd(first.value, SatMul(write.value, |writes|))) else None
  }

  /** Whether `check_payer` lets the upload go ahead with a payer of `lamports`. */
  predicate PayerPasses(lamports: u64, balanceNeeded: u64, initial: Option<Message>, writes: seq<Message>,
                        rules: FeeRules)
    requires |writes| <= U64_MAX
  {
    var fee := EstimatedFee(initial, writes, rules);
    && fee.Some?
    && balanceNeeded + fee.value <= U64_MAX
    && lamports != 0 && balanceNeeded + fee.value <= lamports
  }

  lemma {:induction false} CappedSum(fees: seq<nat>, fee: nat)
    requires forall i :: 0 <= i < |fees| ==> fees[i] <= fee
    ensures AddUp(fees) <= fee * |fees|
    ensures (forall i :: 0 <= i < |fees| ==> fees[i] == fee) ==> AddUp(fees) == fee * |fees|
  {
    if fees != [] {
      CappedSum(fees[..|fees| - 1], fee);
      OneMore(fee, |fees| - 1);
    }
  }

  lemma {:induction false} OneMore(fee: nat, n: nat)
    ensures fee * (n + 1) == fee * n + fee
  {
  }

  lemma {:induction false} CreatedCostsTheSame(baseline: Message, w: Write, price: Option<u64>, rules: FeeRules)
    requires Built(baseline, 1, price, rules)
    ensures FeeOf(CreateMessage(baseline, w), rules) == FeeOf(baseline, rules)
  {
    CreatedIsBuilt(baseline, w, price, rules);
    SameShapeSameFee(CreateMessage(baseline, w), baseline, rules);
  }

  /** The product `check_payer` computes is the sum of the fees of all write messages. */
  lemma {:induction false} ProductIsSum(baseline: Message, price: Option<u64>, rules: FeeRules, plan: seq<Write>,
                                        writes: seq<Message>)
    requires Built(baseline, 1, price, rules) && FeeOf(baseline, rules).Some? && CreatedFrom(writes, baseline, plan)
    ensures AllHaveFees(writes, rules)
    ensures AddUp(Fees(writes, rules)) == FeeOf(baseline, rules).value * |writes|
  {
    var fee := FeeOf(baseline, rules).value;
    forall i | 0 <= i < |writes| ensures FeeOf(writes[i], rules) == Some(fee) {
      CreatedCostsTheSame(baseline, plan[i], price, rules);
    }
    CappedSum(Fees(writes, rules), fee);
  }

  lemma {:induction false} UnitPriceRoundTrip(price: u64)
    ensures ParseBudget(UnitPriceData(price)) == Some(UnitPrice(price))
  {
    assert UnitPriceData(price)[1..9] == ToLittleEndian(price, 8);
    SlotFits(price);
    LittleEndianRoundTrip(price, 8);
  }

  /** What an upload's message costs: its signatures, and the price times its unit limit,
      which the cluster caps. */
  lemma {:induction false} BuiltCost(m: Message, lead: nat, price: u64, units: u32, rules: FeeRules)
    requires Built(m, lead, Some(price), rules)
    ensures FeeOf(Limited(m, units), rules) ==
              Some(SatAdd(SatMul(m.header.numRequiredSignatures, rules.lamportsPerSignature),
                          PrioritizationFee(price, Min(units, MAX_COMPUTE_UNIT_LIMIT))))
  {
    var limited := Limited(m, units);
    BuiltLimit(m, lead, Some(price), rules);
    BuiltAsks(m, lead, price, rules);
    UnitLimitRoundTrip(units);
    assert limited == WithData(m, lead + 1, UnitLimitData(units));
    OverwrittenRequests(m, lead + 1, units, 0, NO_REQUESTS);
    NoSignaturesInside(m, lead, Some(price), rules, 0);
    BudgetIsNoPrecompile(m, rules, lead + 1, UnitLimitData(units), 0);
  }

  lemma {:induction false} BuiltAsks(m: Message, lead: nat, price: u64, rules: FeeRules)
    requires Built(m, lead, Some(price), rules)
    ensures RequestsFrom(m, 0, NO_REQUESTS) == Some(Requests(None, Some(MAX_COMPUTE_UNIT_LIMIT), Some(price), None))
  {
    LeadAsksNothing(m, lead, Some(price), rules, 0);
    assert m.instructions[lead].data == UnitPriceData(price);
    assert m.instructions[lead + 1].data == UnitLimitData(MAX_COMPUTE_UNIT_LIMIT);
    UnitPriceRoundTrip(price);
    UnitLimitRoundTrip(MAX_COMPUTE_UNIT_LIMIT);
    var r := NO_REQUESTS.(price := Some(price));
    assert RequestsFrom(m, lead, NO_REQUESTS) == RequestsFrom(m, lead + 1, r);
    var both := r.(limit := Some(MAX_COMPUTE_UNIT_LIMIT));
    assert RequestsFrom(m, lead + 2, both) == Some(both);
  }

  lemma {:induction false} LeadAsksNothing(m: Message, lead: nat, price: Option<u64>, rules: FeeRules, i: nat)
    requires Built(m, lead, price, rules) && i <= lead
    ensures RequestsFrom(m, i, NO_REQUESTS) == RequestsFrom(m, lead, NO_REQUESTS)
    decreases lead - i
  {
    if i < lead {
      LeadAsksNothing(m, lead, price, rules, i + 1);
      assert !IsBudget(m, i);
    }
  }

  lemma {:induction false} NoSignaturesInside(m: Message, lead: nat, price: Option<u64>, rules: FeeRules, i: nat)
    requires Built(m, lead, price, rules)
    ensures PrecompileSignatures(m, rules, i) == 0
    decreases |m.instructions| - i
  {
    if i < |m.instructions| {
      NoSignaturesInside(m, lead, price, rules, i + 1);
      assert lead <= i ==> IsBudget(m, i);
    }
  }

  lemma {:induction false} LimitedCostsNoMore(m: Message, lead: nat, price: Option<u64>, rules: FeeRules, units: u32)
    requires Built(m, lead, price, rules) && FeeOf(m, rules).Some?
    ensures FeeOf(Limited(m, units), rules).Some?
    ensures FeeOf(Limited(m, units), rules).value <= FeeOf(m, rules).value
  {
    BuiltLimit(m, lead, price, rules);
    if price.Some? {
      LowerLimitCostsNoMore(m, rules, lead + 1, units);
    }
  }

  /** The first `sent` writes with the simulated limit carried over. */
  function LimitedWrites(writes: seq<Message>, units: u32, sent: nat): (limited: seq<Message>)
    requires sent <= |writes|
    ensures |limited| == sent && forall i :: 0 <= i < sent ==> limited[i] == Limited(writes[i], units)
  {
    seq(sent, i requires 0 <= i < sent <= |writes| => Limited(writes[i], units))
  }

  lemma {:induction false} LimitedWritesCost(baseline: Message, price: Option<u64>, rules: FeeRules, plan: seq<Write>,
                          writes: seq<Message>, units: u32, sent: nat)
    requires Built(baseline, 1, price, rules) && FeeOf(baseline, rules).Some? && CreatedFrom(writes, baseline, plan)
    requires sent <= |writes|
    ensures AllHaveFees(LimitedWrites(writes, units, sent), rules)
    ensures AddUp(Fees(LimitedWrites(writes, units, sent), rules)) <= FeeOf(baseline, rules).value * |writes|
  {
    var fee := FeeOf(baseline, rules).value;
    var limited := LimitedWrites(writes, units, sent);
    forall i | 0 <= i < sent ensures FeeOf(limited[i], rules).Some? && FeeOf(limited[i], rules).value <= fee {
      CreatedIsBuilt(baseline, plan[i], price, rules);
      CreatedCostsTheSame(baseline, plan[i], price, rules);
      LimitedCostsNoMore(writes[i], 1, price, rules, units);
    }
    CappedSum(Fees(limited, rules), fee);
    ScaleUp(fee, sent, |writes|);
  }

  lemma {:induction false} ScaleUp(fee: nat, a: nat, b: nat)
    requires a <= b
    ensures fee * a <= fee * b
  {
  }

  function FeeOrZero(m: Message, rules: FeeRules): nat {
    if FeeOf(m, rules).Some? then FeeOf(m, rules).value else 0
  }

  function FeeOrNone(m: Option<Message>, rules: FeeRules): Option<u64> {
    if m.None? then Some(0) else FeeOf(m.value, rules)
  }

  /** What the initial message and all writes cost before any limit is lowered. */
  function FullCost(initial: Option<Message>, baseline: Message, count: nat, rules: FeeRules): nat
    requires FeeOrNone(initial, rules).Some? && FeeOf(baseline, rules).Some?
  {
    ProductNotNegative(FeeOf(baseline, rules).value, count);
    FeeOrNone(initial, rules).value + FeeOf(baseline, rules).value * count
  }

  /** The payer check lets an uncovered cost through in one case only, the one that
      saturation hides: a full 64-bit balance, no rent to pay and a cost beyond 64 bits. */
  lemma {:induction false} UncoveredExactly(lamports: u64, balanceNeeded: u64, initial: Option<Message>,
                                            baseline: Message,
                                            price: Option<u64>, rules: FeeRules, plan: seq<Write>, writes: seq<Message>)
    requires Built(baseline, 1, price, rules) && FeeOf(baseline, rules).Some? && CreatedFrom(writes, baseline, plan)
    requires |writes| <= U64_MAX && FeeOrNone(initial, rules).Some?
    ensures
      var cost := FullCost(initial, baseline, |writes|, rules);
      PayerPasses(lamports, balanceNeeded, initial, writes, rules) && lamports < balanceNeeded + cost <==>
        lamports == U64_MAX && balanceNeeded == 0 && U64_MAX < cost
  {
    if FullCost(initial, baseline, |writes|, rules) <= U64_MAX {
      EstimateIsExact(initial, baseline, price, rules, plan, writes);
    } else {
      EstimateSaturates(initial, baseline, price, rules, plan, writes);
    }
  }

  /** For example: two writes at the highest price per signature against a full balance. */
  lemma {:induction false} FullBalanceUncovered()
    ensures
      var rules := FeeRules(U64_MAX, {}, _ => 0);
      var key: Pubkey := seq(32, _ => 0);
      var baseline := Message(Header(1, 0, 1), [key], key, [CompiledInstruction(0, [], WriteData(0, []))]);
      var plan := [Write(0, [1]), Write(1, [2])];
      var writes := [CreateMessage(baseline, plan[0]), CreateMessage(baseline, plan[1])];
      && IsBaseline(baseline, None, rules) && CreatedFrom(writes, baseline, plan)
      && FeeOf(baseline, rules) == Some(U64_MAX)
      && PayerPasses(U64_MAX, 0, None, writes, rules) && U64_MAX < FullCost(None, baseline, 2, rules)
  {
    var rules := FeeRules(U64_MAX, {}, _ => 0);
    var key: Pubkey := seq(32, _ => 0);
    var baseline := Message(Header(1, 0, 1), [key], key, [CompiledInstruction(0, [], WriteData(0, []))]);
    var plan := [Write(0, [1]), Write(1, [2])];
    var writes := [CreateMessage(baseline, plan[0]), CreateMessage(baseline, plan[1])];
    assert key[0] != COMPUTE_BUDGET_ID[0];
    assert ProgramId(baseline, 0) == Some(key);
    OneWriteCosts(baseline, key, rules);
    UncoveredExactly(U64_MAX, 0, None, baseline, None, rules, plan, writes);
  }

  lemma {:induction false} OneWriteCosts(m: Message, key: Pubkey, rules: FeeRules)
    requires |m.instructions| == 1 && ProgramId(m, 0) == Some(key) && key != COMPUTE_BUDGET_ID
    requires key !in rules.precompiles && m.header.numRequiredSignatures == 1
    ensures FeeOf(m, rules) == Some(rules.lamportsPerSignature)
  {
    assert RequestsFrom(m, 1, NO_REQUESTS) == Some(NO_REQUESTS);
    assert RequestsFrom(m, 0, NO_REQUESTS) == Some(NO_REQUESTS);
    assert PrecompileSignatures(m, rules, 1) == 0;
    assert PrioritizationFee(0, EffectiveLimit(m, rules, NO_REQUESTS)) == 0;
  }

  /** A payer passes exactly if it is not empty and covers the rent and the whole cost. */
  lemma {:induction false} PayerPassesExactly(lamports: u64, balanceNeeded: u64, initial: Option<Message>,
                                              baseline: Message, price: Option<u64>, rules: FeeRules, plan: seq<Write>,
                                              writes: seq<Message>)
    requires Built(baseline, 1, price, rules) && FeeOf(baseline, rules).Some? && CreatedFrom(writes, baseline, plan)
    requires |writes| <= U64_MAX && FeeOrNone(initial, rules).Some?
    requires FullCost(initial, baseline, |writes|, rules) <= U64_MAX
    ensures PayerPasses(lamports, balanceNeeded, initial, writes, rules) <==>
              lamports != 0 && balanceNeeded + FullCost(initial, baseline, |writes|, rules) <= lamports
  {
    EstimateIsExact(initial, baseline, price, rules, plan, writes);
  }

  lemma {:induction false} EstimateSaturates(initial: Option<Message>, baseline: Message, price: Option<u64>,
                                             rules: FeeRules, plan: seq<Write>, writes: seq<Message>)
    requires Built(baseline, 1, price, rules) && FeeOf(baseline, rules).Some? && CreatedFrom(writes, baseline, plan)
    requires |writes| <= U64_MAX && FeeOrNone(initial, rules).Some?
    requires U64_MAX < FullCost(initial, baseline, |writes|, rules)
    ensures EstimatedFee(initial, writes, rules) == Some(U64_MAX)
  {
    if writes != [] {
      CreatedCostsTheSame(baseline, plan[0], price, rules);
    }
  }

  /** The first `count` of the writes that are sent; none if the simulation fails. */
  function SentWrites(writes: seq<Message>, simulated: Option<u64>, count: nat): seq<Message> {
    if writes == [] then []
    else
      match CarryLimit(Simulated, simulated, writes)
      case Ok(sent) => if count <= |sent| then sent[..count] else sent
      case Err(_) => []
  }

  lemma {:induction false} SentCost(baseline: Message, price: Option<u64>, rules: FeeRules, plan: seq<Write>,
                                    writes: seq<Message>, simulated: Option<u64>, count: nat)
    requires Built(baseline, 1, price, rules) && FeeOf(baseline, rules).Some? && CreatedFrom(writes, baseline, plan)
    ensures
      var sent := SentWrites(writes, simulated, count);
      && AllHaveFees(sent, rules)
      && AddUp(Fees(sent, rules)) <= FeeOf(baseline, rules).value * |writes|
  {
    ProductNotNegative(FeeOf(baseline, rules).value, |writes|);
    var sent := SentWrites(writes, simulated, count);
    if sent != [] {
      var units := CarriedIsLimited(baseline, price, rules, plan, writes, simulated);
      LimitedWritesCost(baseline, price, rules, plan, writes, units, |sent|);
      assert sent == LimitedWrites(writes, units, |sent|);
    }
  }

  /** Once the payer check passes, the payer can pay for the initial message with the
      buffer's rent and for any number of the writes, each sent once with the limit
      carried over to it; the only exception is a full balance against a cost beyond
      64 bits. */
  lemma {:induction false} PayerStaysSolvent(lamports: u64, balanceNeeded: u64, initial: Option<Message>,
                                             baseline: Message,
                                             price: Option<u64>, rules: FeeRules, plan: seq<Write>,
                                             writes: seq<Message>,
                                             initialUnits: u32, simulated: Option<u64>, count: nat)
    requires Built(baseline, 1, price, rules) && FeeOf(baseline, rules).Some? && CreatedFrom(writes, baseline, plan)
    requires initial.Some? ==> Built(initial.value, 2, price, rules)
    requires |writes| <= U64_MAX && PayerPasses(lamports, balanceNeeded, initial, writes, rules)
    requires lamports < U64_MAX || FullCost(initial, baseline, |writes|, rules) <= U64_MAX
    ensures
      var sent := SentWrites(writes, simulated, count);
      var first := if initial.None? then None else Some(Limited(initial.value, initialUnits));
      && AllHaveFees(sent, rules) && FeeOrNone(first, rules).Some?
      && balanceNeeded + FeeOrNone(first, rules).value + AddUp(Fees(sent, rules)) <= lamports
  {
    SentCost(baseline, price, rules, plan, writes, simulated, count);
    if initial.Some? {
      LimitedCostsNoMore(initial.value, 2, price, rules, initialUnits);
    }
    UncoveredExactly(lamports, balanceNeeded, initial, baseline, price, rules, plan, writes);
  }

  lemma {:induction false} EstimateIsExact(initial: Option<Message>, baseline: Message, price: Option<u64>,
                                           rules: FeeRules,
                        plan: seq<Write>, writes: seq<Message>)
    requires Built(baseline, 1, price, rules) && FeeOf(baseline, rules).Some? && CreatedFrom(writes, baseline, plan)
    requires |writes| <= U64_MAX && FeeOrNone(initial, rules).Some?
    requires FeeOrNone(initial, rules).value + FeeOf(baseline, rules).value * |writes| <= U64_MAX
    ensures EstimatedFee(initial, writes, rules) ==
              Some(FeeOrNone(initial, rules).value + FeeOf(baseline, rules).value * |writes|)
  {
    var fee := FeeOf(baseline, rules).value;
    if writes != [] {
      CreatedCostsTheSame(baseline, plan[0], price, rules);
      assert SatMul(fee, |writes|) == fee * |writes|;
    }
  }
}
