/** What the cluster charges for a message: a price per signature plus a
    prioritisation fee from the message's compute-budget instructions. */
module Fee {
  import opened Prelude
  import opened LoaderState
  import opened Wire
  import opened ComputeBudget

  /** `precompiles` are the signature-verifying programs, whose instructions count
      their signatures in the first data byte; `defaultLimit` is the unit limit of
      a message without one, which depends on the invoked programs only. */
  datatype FeeRules = FeeRules(
    lamportsPerSignature: u64,
    precompiles: set<Pubkey>,
    defaultLimit: seq<Option<Pubkey>> -> nat)

  datatype Requests = Requests(heap: Option<nat>, limit: Option<nat>, price: Option<nat>, loaded: Option<nat>)

  const NO_REQUESTS := Requests(None, None, None, None)
  const MICRO_LAMPORTS_PER_LAMPORT := 1_000_000

  /** One more request; asking twice for the same thing is an error. */
  function Note(r: Requests, budget: Option<Budget>): Option<Requests> {
    match budget
    case Some(HeapFrame(n)) => if r.heap.Some? then None else Some(r.(heap := Some(n)))
    case Some(UnitLimit(n)) => if r.limit.Some? then None else Some(r.(limit := Some(n)))
    case Some(UnitPrice(n)) => if r.price.Some? then None else Some(r.(price := Some(n)))
    case Some(LoadedSize(n)) => if r.loaded.Some? then None else Some(r.(loaded := Some(n)))
    case _ => None
  }

  function RequestsFrom(m: Message, i: nat, r: Requests): Option<Requests>
    decreases |m.instructions| - i
  {
    if |m.instructions| <= i then Some(r)
    else if !IsBudget(m, i) then RequestsFrom(m, i + 1, r)
    else
      match Note(r, ParseBudget(m.instructions[i].data))
      case None => None
      case Some(next) => RequestsFrom(m, i + 1, next)
  }

  predicate Acceptable(r: Requests) {
    && (r.heap.Some? ==> 32 * 1024 <= r.heap.value <= 256 * 1024 && r.heap.value % 1024 == 0)
    && (r.loaded.Some? ==> r.loaded.value != 0)
  }

  function Programs(m: Message): seq<Option<Pubkey>> {
    seq(|m.instructions|, i requires 0 <= i => ProgramId(m, i))
  }

  function PrecompileSignatures(m: Message, rules: FeeRules, i: nat): nat
    decreases |m.instructions| - i
  {
    if |m.instructions| <= i then 0
    else
      var id := ProgramId(m, i);
      var own := if id.Some? && id.value in rules.precompiles && m.instructions[i].data != []
                 then m.instructions[i].data[0] else 0;
      own + PrecompileSignatures(m, rules, i + 1)
  }

  function PrioritizationFee(price: nat, limit: nat): u64 {
    ProductNotNegative(price, limit);
    Min((price * limit + MICRO_LAMPORTS_PER_LAMPORT - 1) / MICRO_LAMPORTS_PER_LAMPORT, U64_MAX)
  }

  /** The least number of lamports that covers the price, capped at 64 bits. */
  lemma {:induction false} PrioritizationIsLeast(price: nat, limit: nat)
    ensures
      var fee := PrioritizationFee(price, limit);
      && (price * limit <= MICRO_LAMPORTS_PER_LAMPORT * U64_MAX ==> price * limit <= MICRO_LAMPORTS_PER_LAMPORT * fee)
      && (MICRO_LAMPORTS_PER_LAMPORT * U64_MAX < price * limit ==> fee == U64_MAX)
      && forall other: nat :: price * limit <= MICRO_LAMPORTS_PER_LAMPORT * other ==> fee <= other
  {
    ProductNotNegative(price, limit);
    RoundedUp(price * limit);
  }

  lemma {:induction false} RoundedUp(n: nat)
    ensures
      var r := (n + MICRO_LAMPORTS_PER_LAMPORT - 1) / MICRO_LAMPORTS_PER_LAMPORT;
      n <= MICRO_LAMPORTS_PER_LAMPORT * r && forall other: nat :: n <= MICRO_LAMPORTS_PER_LAMPORT * other ==> r <= other
  {
  }

  function EffectiveLimit(m: Message, rules: FeeRules, r: Requests): nat {
    Min(if r.limit.Some? then r.limit.value else rules.defaultLimit(Programs(m)), MAX_COMPUTE_UNIT_LIMIT)
  }

  function SignatureFee(m: Message, rules: FeeRules): u64 {
    var count := m.header.numRequiredSignatures + PrecompileSignatures(m, rules, 0);
    SatMul(Min(count, U64_MAX), rules.lamportsPerSignature)
  }

  function Appended(m: Message, more: CompiledInstruction): Message {
    m.(instructions := m.instructions + [more])
  }

  lemma {:induction false} SignaturesAppended(m: Message, more: CompiledInstruction, rules: FeeRules, i: nat)
    requires i <= |m.instructions|
    ensures
      PrecompileSignatures(Appended(m, more), rules, i)
      == PrecompileSignatures(m, rules, i) + PrecompileSignatures(Appended(m, more), rules, |m.instructions|)
    decreases |m.instructions| - i
  {
    if i < |m.instructions| {
      assert Appended(m, more).instructions[i] == m.instructions[i];
      assert ProgramId(Appended(m, more), i) == ProgramId(m, i);
      SignaturesAppended(m, more, rules, i + 1);
    }
  }

  lemma {:induction false} MorePays(count: nat, more: nat, price: u64)
    requires SatMul(Min(count + more, U64_MAX), price) < U64_MAX
    ensures
      SatMul(Min(count + more, U64_MAX), price) == SatMul(Min(count, U64_MAX), price) + more * price
  {
    if price != 0 {
      assert count + more < U64_MAX;
      assert (count + more) * price == count * price + more * price;
      ProductNotNegative(more, price);
    }
  }

  /** An instruction of a signature-verifying program is paid for by the signatures it
      counts, another by none. */
  lemma {:induction false} SignaturesArePaid(m: Message, more: CompiledInstruction, rules: FeeRules)
    requires SignatureFee(Appended(m, more), rules) < U64_MAX
    ensures
      var program := ProgramId(Appended(m, more), |m.instructions|);
      var count := if program.Some? && program.value in rules.precompiles && more.data != [] then more.data[0] else 0;
      SignatureFee(Appended(m, more), rules) == SignatureFee(m, rules) + count * rules.lamportsPerSignature
    ensures
      m.instructions == [] ==>
        SignatureFee(m, rules) == SatMul(m.header.numRequiredSignatures, rules.lamportsPerSignature)
  {
    SignaturesAppended(m, more, rules, 0);
    var own := PrecompileSignatures(Appended(m, more), rules, |m.instructions|);
    assert PrecompileSignatures(Appended(m, more), rules, |m.instructions| + 1) == 0;
    MorePays(m.header.numRequiredSignatures + PrecompileSignatures(m, rules, 0), own, rules.lamportsPerSignature);
  }

  /** `None` where the cluster rejects the message's compute-budget instructions. */
  function FeeOf(m: Message, rules: FeeRules): Option<u64> {
    match RequestsFrom(m, 0, NO_REQUESTS)
    case None => None
    case Some(r) =>
      if !Acceptable(r) then None
      else
        var price := if r.price.Some? then r.price.value else 0;
        Some(SatAdd(SignatureFee(m, rules), PrioritizationFee(price, EffectiveLimit(m, rules, r))))
  }

  // ----------------------------------------------------------------------
  // Which requests a message makes, and which messages are rejected

  datatype Kind = HeapKind | LimitKind | PriceKind | LoadedKind

  function Noted(r: Requests, kind: Kind): Option<nat> {
    match kind
    case HeapKind => r.heap
    case LimitKind => r.limit
    case PriceKind => r.price
    case LoadedKind => r.loaded
  }

  /** What a budget instruction asks for; `None` if it cannot be read or is retired. */
  function AskOf(budget: Option<Budget>): Option<(Kind, nat)> {
    match budget
    case Some(HeapFrame(n)) => Some((HeapKind, n))
    case Some(UnitLimit(n)) => Some((LimitKind, n))
    case Some(UnitPrice(n)) => Some((PriceKind, n))
    case Some(LoadedSize(n)) => Some((LoadedKind, n))
    case _ => None
  }

  function AskAt(m: Message, j: nat): Option<(Kind, nat)> {
    if j < |m.instructions| && IsBudget(m, j) then AskOf(ParseBudget(m.instructions[j].data)) else None
  }

  ghost predicate BadFrom(m: Message, i: nat) {
    exists j :: i <= j < |m.instructions| && IsBudget(m, j) && AskAt(m, j).None?
  }

  ghost predicate TakenFrom(m: Message, i: nat, r: Requests) {
    exists j :: i <= j < |m.instructions| && AskAt(m, j).Some? && Noted(r, AskAt(m, j).value.0).Some?
  }

  ghost predicate ClashFrom(m: Message, i: nat) {
    exists j, l :: i <= j < l < |m.instructions| && SameKind(AskAt(m, j), AskAt(m, l))
  }

  predicate SameKind(a: Option<(Kind, nat)>, b: Option<(Kind, nat)>) { a.Some? && b.Some? && a.value.0 == b.value.0 }

  lemma {:induction false} NoteAsk(r: Requests, budget: Option<Budget>)
    ensures Note(r, budget).None? <==> AskOf(budget).None? || Noted(r, AskOf(budget).value.0).Some?
    ensures Note(r, budget).Some? ==>
              forall kind :: Noted(Note(r, budget).value, kind) ==
                if kind == AskOf(budget).value.0 then Some(AskOf(budget).value.1) else Noted(r, kind)
  {
  }

  lemma {:induction false} RejectedFrom(m: Message, i: nat, r: Requests)
    ensures RequestsFrom(m, i, r).None? <==> BadFrom(m, i) || TakenFrom(m, i, r) || ClashFrom(m, i)
    decreases |m.instructions| - i
  {
    if i < |m.instructions| {
      if !IsBudget(m, i) {
        RejectedFrom(m, i + 1, r);
      } else {
        var budget := ParseBudget(m.instructions[i].data);
        NoteAsk(r, budget);
        assert AskAt(m, i) == AskOf(budget);
        if Note(r, budget).Some? {
          RejectedFrom(m, i + 1, Note(r, budget).value);
          TakenNext(m, i, r);
        }
      }
    }
  }

  lemma {:induction false} TakenNext(m: Message, i: nat, r: Requests)
    requires i < |m.instructions| && IsBudget(m, i) && Note(r, ParseBudget(m.instructions[i].data)).Some?
    ensures
      var next := Note(r, ParseBudget(m.instructions[i].data)).value;
      TakenFrom(m, i + 1, next) || ClashFrom(m, i + 1) <==> TakenFrom(m, i, r) || ClashFrom(m, i)
  {
    var budget := ParseBudget(m.instructions[i].data);
    var next := Note(r, budget).value;
    NoteAsk(r, budget);
    assert AskAt(m, i) == AskOf(budget);
    if TakenFrom(m, i + 1, next) {
      var j :| i + 1 <= j < |m.instructions| && AskAt(m, j).Some? && Noted(next, AskAt(m, j).value.0).Some?;
      if AskAt(m, j).value.0 == AskAt(m, i).value.0 {
        assert SameKind(AskAt(m, i), AskAt(m, j));
      } else {
        assert Noted(r, AskAt(m, j).value.0).Some?;
      }
    }
    if TakenFrom(m, i, r) {
      var j :| i <= j < |m.instructions| && AskAt(m, j).Some? && Noted(r, AskAt(m, j).value.0).Some?;
      assert Noted(next, AskAt(m, j).value.0).Some?;
    }
    if ClashFrom(m, i) {
      var j, l :| i <= j < l < |m.instructions| && SameKind(AskAt(m, j), AskAt(m, l));
      assert j == i ==> Noted(next, AskAt(m, l).value.0).Some?;
    }
  }

  /** Where the requests of an accepted message come from. */
  lemma {:induction false} RequestsCome(m: Message, i: nat, r: Requests, kind: Kind, n: nat)
    requires RequestsFrom(m, i, r).Some?
    ensures Noted(RequestsFrom(m, i, r).value, kind) == Some(n) <==>
              || Noted(r, kind) == Some(n)
              || exists j :: i <= j < |m.instructions| && AskAt(m, j) == Some((kind, n))
    decreases |m.instructions| - i
  {
    if i < |m.instructions| {
      if !IsBudget(m, i) {
        RequestsCome(m, i + 1, r, kind, n);
      } else {
        var budget := ParseBudget(m.instructions[i].data);
        NoteAsk(r, budget);
        RequestsCome(m, i + 1, Note(r, budget).value, kind, n);
        assert AskAt(m, i) == AskOf(budget);
      }
    }
  }

  /** A message has a fee exactly if every compute-budget instruction in it can be read,
      no two ask for the same thing, a heap asked for is a multiple of 1 KiB from 32 to
      256 KiB, and a loaded data size asked for is not zero. */
  lemma {:induction false} AcceptedExactly(m: Message, rules: FeeRules)
    ensures FeeOf(m, rules).Some? <==>
              && (forall j :: 0 <= j < |m.instructions| && IsBudget(m, j) ==> AskAt(m, j).Some?)
              && (forall j, l :: 0 <= j < l < |m.instructions| ==> !SameKind(AskAt(m, j), AskAt(m, l)))
              && (forall j, n :: 0 <= j < |m.instructions| && AskAt(m, j) == Some((HeapKind, n)) ==>
                    32 * 1024 <= n <= 256 * 1024 && n % 1024 == 0)
              && (forall j :: 0 <= j < |m.instructions| ==> AskAt(m, j) != Some((LoadedKind, 0)))
  {
    RejectedFrom(m, 0, NO_REQUESTS);
    if RequestsFrom(m, 0, NO_REQUESTS).Some? {
      var r := RequestsFrom(m, 0, NO_REQUESTS).value;
      forall n: nat
        ensures r.heap == Some(n) <==> exists j :: 0 <= j < |m.instructions| && AskAt(m, j) == Some((HeapKind, n))
      {
        RequestsCome(m, 0, NO_REQUESTS, HeapKind, n);
      }
      RequestsCome(m, 0, NO_REQUESTS, LoadedKind, 0);
    }
  }

  /** Two messages that differ at most in the data of instructions that neither set
      the compute budget nor carry signatures. */
  ghost predicate SameShape(a: Message, b: Message, rules: FeeRules) {
    && a.header.numRequiredSignatures == b.header.numRequiredSignatures
    && |a.instructions| == |b.instructions|
    && forall i :: 0 <= i < |a.instructions| ==>
         && ProgramId(a, i) == ProgramId(b, i)
         && (ProgramId(a, i).Some? && (IsBudget(a, i) || ProgramId(a, i).value in rules.precompiles) ==>
               a.instructions[i].data == b.instructions[i].data)
  }

  lemma {:induction false} SameRequests(a: Message, b: Message, rules: FeeRules, i: nat, r: Requests)
    requires SameShape(a, b, rules)
    ensures RequestsFrom(a, i, r) == RequestsFrom(b, i, r)
    ensures PrecompileSignatures(a, rules, i) == PrecompileSignatures(b, rules, i)
    decreases |a.instructions| - i
  {
    if i < |a.instructions| {
      assert ProgramId(a, i) == ProgramId(b, i);
      SameRequests(a, b, rules, i + 1, r);
      if IsBudget(a, i) {
        var next := Note(r, ParseBudget(a.instructions[i].data));
        if next.Some? {
          SameRequests(a, b, rules, i + 1, next.value);
        }
      }
    }
  }

  /** Messages of one shape cost the same. */
  lemma {:induction false} SameShapeSameFee(a: Message, b: Message, rules: FeeRules)
    requires SameShape(a, b, rules)
    ensures FeeOf(a, rules) == FeeOf(b, rules)
  {
    SameRequests(a, b, rules, 0, NO_REQUESTS);
    assert Programs(a) == Programs(b);
  }

  // ----------------------------------------------------------------------
  // Lowering the unit limit

  /** Once a limit is noted no later instruction looks at its value. */
  lemma {:induction false} LimitNotReread(m: Message, i: nat, r: Requests, units: nat)
    requires r.limit.Some?
    ensures
      var lowered := RequestsFrom(m, i, r.(limit := Some(units)));
      match RequestsFrom(m, i, r)
      case None => lowered.None?
      case Some(end) => end.limit == r.limit && lowered == Some(end.(limit := Some(units)))
    decreases |m.instructions| - i
  {
    if i < |m.instructions| {
      if !IsBudget(m, i) {
        LimitNotReread(m, i + 1, r, units);
      } else {
        var next := Note(r, ParseBudget(m.instructions[i].data));
        if next.Some? {
          LimitNotReread(m, i + 1, next.value, units);
        }
      }
    }
  }

  lemma {:induction false} SuffixRequests(m: Message, m': Message, i: nat, r: Requests)
    requires |m.instructions| == |m'.instructions| && m.accountKeys == m'.accountKeys
    requires forall j :: i <= j < |m.instructions| ==> m.instructions[j] == m'.instructions[j]
    ensures RequestsFrom(m, i, r) == RequestsFrom(m', i, r)
    decreases |m.instructions| - i
  {
    if i < |m.instructions| {
      assert m.instructions[i] == m'.instructions[i];
      if !IsBudget(m, i) {
        SuffixRequests(m, m', i + 1, r);
      } else {
        var next := Note(r, ParseBudget(m.instructions[i].data));
        if next.Some? {
          SuffixRequests(m, m', i + 1, next.value);
        }
      }
    }
  }

  /** Overwriting the unit limit changes the noted limit and nothing else. */
  lemma {:induction false} OverwrittenRequests(m: Message, index: nat, units: u32, i: nat, r: Requests)
    requires i <= index < |m.instructions| && LimitIndexFrom(m, i) == Some(index) && r.limit.None?
    ensures
      var m' := WithData(m, index, UnitLimitData(units));
      var lowered := RequestsFrom(m', i, r);
      match RequestsFrom(m, i, r)
      case None => lowered.None?
      case Some(end) =>
        && end.limit.Some? && ParseBudget(m.instructions[index].data) == Some(UnitLimit(end.limit.value))
        && lowered == Some(end.(limit := Some(units)))
    decreases index - i
  {
    var m' := WithData(m, index, UnitLimitData(units));
    if i == index {
      UnitLimitRoundTrip(units);
      assert IsBudget(m', i);
      var parsed := ParseBudget(m.instructions[index].data).value;
      SuffixRequests(m, m', i + 1, r.(limit := Some(units)));
      LimitNotReread(m, i + 1, r.(limit := Some(parsed.units)), units);
    } else {
      assert m'.instructions[i] == m.instructions[i];
      if !IsBudget(m, i) {
        OverwrittenRequests(m, index, units, i + 1, r);
      } else {
        var next := Note(r, ParseBudget(m.instructions[i].data));
        if next.Some? {
          OverwrittenRequests(m, index, units, i + 1, next.value);
        }
      }
    }
  }

  lemma {:induction false} PrioritizationMonotone(price: nat, a: nat, b: nat)
    requires a <= b
    ensures PrioritizationFee(price, a) <= PrioritizationFee(price, b)
  {
    assert price * a <= price * b;
  }

  lemma {:induction false} BudgetIsNoPrecompile(m: Message, rules: FeeRules, index: nat, data: seq<byte>, i: nat)
    requires index < |m.instructions| && IsBudget(m, index) && COMPUTE_BUDGET_ID !in rules.precompiles
    ensures PrecompileSignatures(WithData(m, index, data), rules, i) == PrecompileSignatures(m, rules, i)
    decreases |m.instructions| - i
  {
    if i < |m.instructions| {
      BudgetIsNoPrecompile(m, rules, index, data, i + 1);
      assert ProgramId(WithData(m, index, data), i) == ProgramId(m, i);
    }
  }

  /** Replacing a message's unit limit by one that is no larger, once both are cut to
      the cluster's maximum, never raises its fee and never makes it unacceptable. */
  lemma {:induction false} LowerLimitCostsNoMore(m: Message, rules: FeeRules, index: nat, units: u32)
    requires LimitIndex(m) == Some(index) && COMPUTE_BUDGET_ID !in rules.precompiles
    requires FeeOf(m, rules).Some?
    requires
      var parsed := ParseBudget(m.instructions[index].data);
      parsed.Some? && parsed.value.UnitLimit? &&
      Min(units, MAX_COMPUTE_UNIT_LIMIT) <= Min(parsed.value.units, MAX_COMPUTE_UNIT_LIMIT)
    ensures
      var lowered := FeeOf(WithData(m, index, UnitLimitData(units)), rules);
      lowered.Some? && lowered.value <= FeeOf(m, rules).value
  {
    var m' := WithData(m, index, UnitLimitData(units));
    OverwrittenRequests(m, index, units, 0, NO_REQUESTS);
    BudgetIsNoPrecompile(m, rules, index, UnitLimitData(units), 0);
    var r := RequestsFrom(m, 0, NO_REQUESTS).value;
    var price := if r.price.Some? then r.price.value else 0;
    PrioritizationMonotone(price, Min(units, MAX_COMPUTE_UNIT_LIMIT), EffectiveLimit(m, rules, r));
  }
}
