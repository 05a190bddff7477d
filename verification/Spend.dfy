/** Resolving how much to spend: a dummy message is built and simulated, its fee
    found, the amount settled, and the real message given the dummy's unit limit. */
module Spend {
  import opened Prelude
  import opened LoaderState
  import opened Wire
  import opened ComputeBudget
  import opened Fee

  datatype SpendAmount =
    | All
    | Available
    | Explicit(amount: u64)
    | RentExempt
    | AllForAccountCreation(minBalance: u64)

  /** The account that is spent from, as the cluster reports it.  `active` and
      `activating` are zero unless it is a delegated stake account. */
  datatype Source = Source(lamports: u64, isStake: bool, active: u64, activating: u64, rentMinimum: u64)

  datatype SpendError =
    | SimulationFailed
    | NoFee
    | NoSuchInstruction
    | InsufficientFundsForSpendAndFee
    | InsufficientFundsForSpend
    | InsufficientFundsForFee

  /** Everything a resolution depends on besides the amount and the source. */
  datatype Request = Request(
    samePayer: bool,                 // the source also pays the fee
    feeBalance: u64,                 // balance of the separate fee payer
    blockhash: Pubkey,
    setting: LimitSetting,
    simulated: Option<u64>,          // units the simulation of the dummy reports
    rules: FeeRules)

  datatype Resolution = Resolution(message: Message, spend: u64, fee: u64)

  /** `u64_some_if_not_zero`. */
  function SomeIfNotZero(n: u64): Option<u64> { if n > 0 then Some(n) else None }

  function RentToKeep(amount: SpendAmount, source: Source): u64 {
    if amount.RentExempt? || amount.Available? then source.rentMinimum else 0
  }

  /** What may be spent: everything, but of a stake account that has active or
      activating stake only what is neither locked nor needed for rent. */
  function Transferable(amount: SpendAmount, source: Source): u64 {
    if amount.Available? && source.isStake && (source.active > 0 || source.activating > 0)
    then SatSub(source.lamports, source.active + source.activating + source.rentMinimum)
    else source.lamports
  }

  /** What a spend must leave alone: the locked stake and the rent of a stake account
      that `AVAILABLE` is asked of, as far as the account has that much. */
  function Untouchable(amount: SpendAmount, source: Source): nat {
    if amount.Available? && source.isStake && 0 < source.active + source.activating
    then Min(source.lamports, source.active + source.activating + source.rentMinimum)
    else 0
  }

  /** The balance reduced step by step. */
  method ReduceBalance(amount: SpendAmount, source: Source) returns (fromBalance: u64)
    ensures fromBalance == Transferable(amount, source)
    ensures source.lamports == fromBalance + Untouchable(amount, source)
  {
    fromBalance := source.lamports;
    var fromRentExemptMinimum := RentToKeep(amount, source);
    if amount == Available && source.isStake {
      var subtractRentExemptMinimum := false;
      match SomeIfNotZero(source.active) {
        case Some(active) =>
          fromBalance := SatSub(fromBalance, active);
          subtractRentExemptMinimum := true;
        case None =>
      }
      match SomeIfNotZero(source.activating) {
        case Some(activating) =>
          fromBalance := SatSub(fromBalance, activating);
          subtractRentExemptMinimum := true;
        case None =>
      }
      if subtractRentExemptMinimum {
        fromBalance := SatSub(fromBalance, fromRentExemptMinimum);
      }
    }
  }

  function DummyLamports(amount: SpendAmount, samePayer: bool, balance: u64, rent: u64): u64 {
    match amount
    case Explicit(lamports) => lamports
    case AllForAccountCreation(minBalance) => if samePayer then minBalance else balance
    case RentExempt => if samePayer then 0 else SatSub(balance, rent)
    case _ => if samePayer then 0 else balance
  }

  function SpendFor(amount: SpendAmount, samePayer: bool, balance: u64, rent: u64, fee: u64): u64 {
    var left := if samePayer then SatSub(balance, fee) else balance;
    match amount
    case Explicit(lamports) => lamports
    case RentExempt => SatSub(left, rent)
    case _ => left
  }

  /** `resolve_spend_message` with a blockhash. */
  function ResolveMessage(build: u64 -> Message, amount: SpendAmount, request: Request, balance: u64, rent: u64)
    : Result<Resolution, SpendError>
  {
    var dummy := build(DummyLamports(amount, request.samePayer, balance, rent)).(recentBlockhash := request.blockhash);
    match SimulateAndUpdate(request.setting, request.simulated, dummy)
    case Err(_) => Err(SimulationFailed)
    case Ok((update, simulatedDummy)) =>
      match FeeOf(simulatedDummy, request.rules)
      case None => Err(NoFee)
      case Some(fee) =>
        var spend := SpendFor(amount, request.samePayer, balance, rent, fee);
        var message := build(spend);
        match update
        case UpdatedIndex(index) =>
          if index < |message.instructions| && index < |simulatedDummy.instructions|
          then Ok(Resolution(WithData(message, index, simulatedDummy.instructions[index].data), spend, fee))
          else Err(NoSuchInstruction)
        case _ => Ok(Resolution(message, spend, fee))
  }

  /** `resolve_spend_tx_and_check_account_balances`, not in sign-only mode. */
  function Resolve(build: u64 -> Message, amount: SpendAmount, request: Request, source: Source)
    : Result<Resolution, SpendError>
  {
    var balance := Transferable(amount, source);
    match ResolveMessage(build, amount, request, balance, RentToKeep(amount, source))
    case Err(e) => Err(e)
    case Ok(r) =>
      if request.samePayer then
        if balance == 0 || balance < SatAdd(r.spend, r.fee) then Err(InsufficientFundsForSpendAndFee) else Ok(r)
      else if balance < r.spend then Err(InsufficientFundsForSpend)
      else if request.feeBalance != 0 && r.fee <= request.feeBalance then Ok(r)
      else Err(InsufficientFundsForFee)
  }

  // ----------------------------------------------------------------------
  // The fee that was checked is the fee of the message that is sent

  /** The caller's builder changes only amounts, never what the fee depends on. */
  ghost predicate Uniform(build: u64 -> Message, rules: FeeRules) {
    forall a: u64, b: u64 :: SameShape(build(a), build(b), rules)
  }

  lemma {:induction false} SameShapeSameLimitIndex(a: Message, b: Message, rules: FeeRules, from: nat)
    requires SameShape(a, b, rules)
    ensures LimitIndexFrom(a, from) == LimitIndexFrom(b, from)
    decreases |a.instructions| - from
  {
    if from < |a.instructions| {
      assert ProgramId(a, from) == ProgramId(b, from);
      SameShapeSameLimitIndex(a, b, rules, from + 1);
    }
  }

  lemma {:induction false} SameShapeWithData(a: Message, b: Message, rules: FeeRules, index: nat, data: seq<byte>)
    requires SameShape(a, b, rules) && index < |a.instructions|
    ensures SameShape(WithData(a, index, data), WithData(b, index, data), rules)
  {
    var a', b' := WithData(a, index, data), WithData(b, index, data);
    forall i | 0 <= i < |a'.instructions|
      ensures ProgramId(a', i) == ProgramId(b', i) && ProgramId(a', i) == ProgramId(a, i)
    {
      assert ProgramId(a, i) == ProgramId(b, i);
    }
  }

  /** The resolved message costs exactly the fee that was checked.  It is the message
      built for the resolved amount, with at most its own unit limit replaced. */
  lemma {:induction false} FeeIsForTheSentMessage(build: u64 -> Message, amount: SpendAmount, request: Request,
                                                  source: Source)
    requires Uniform(build, request.rules)
    requires Resolve(build, amount, request, source).Ok?
    ensures
      var r := Resolve(build, amount, request, source).value;
      var plain := build(r.spend);
      && FeeOf(r.message, request.rules) == Some(r.fee)
      && (r.message == plain
          || exists units: u32 :: LimitIndex(plain).Some?
               && r.message == WithData(plain, LimitIndex(plain).value, UnitLimitData(units)))
  {
    var balance, rent := Transferable(amount, source), RentToKeep(amount, source);
    var built := build(DummyLamports(amount, request.samePayer, balance, rent));
    var dummy := built.(recentBlockhash := request.blockhash);
    var r := Resolve(build, amount, request, source).value;
    var plain := build(r.spend);
    assert SameShape(dummy, plain, request.rules) by {
      assert SameShape(built, plain, request.rules);
      assert forall i :: 0 <= i < |built.instructions| ==> ProgramId(dummy, i) == ProgramId(built, i);
    }
    SameShapeSameLimitIndex(dummy, plain, request.rules, 0);
    var (update, simulatedDummy) := SimulateAndUpdate(request.setting, request.simulated, dummy).value;
    match update {
      case UpdatedIndex(index) =>
        var units := SimulatedLimit(request.setting, request.simulated.value).value;
        SameShapeWithData(dummy, plain, request.rules, index, UnitLimitData(units));
        SameShapeSameFee(simulatedDummy, r.message, request.rules);
        assert r.message == WithData(plain, LimitIndex(plain).value, UnitLimitData(units));
      case _ =>
        SameShapeSameFee(dummy, r.message, request.rules);
    }
  }

  /** The dummy that is simulated carries the very amount that is spent, except where one
      account pays both and the amount waits for the fee: then nothing, or the minimum for
      the account to be created. */
  lemma {:induction false} DummyAmount(build: u64 -> Message, amount: SpendAmount, request: Request, source: Source)
    requires Resolve(build, amount, request, source).Ok?
    ensures
      var r := Resolve(build, amount, request, source).value;
      var dummy := DummyLamports(amount, request.samePayer, Transferable(amount, source), RentToKeep(amount, source));
      if !request.samePayer || amount.Explicit? then dummy == r.spend
      else if amount.AllForAccountCreation? then dummy == amount.minBalance
      else dummy == 0
  {
  }

  // ----------------------------------------------------------------------
  // Conservation

  /** Where the account's lamports go.  With one account for both, `ALL` and the like use
      up everything that is not untouchable, a rent-exempt spend leaves exactly the rent or
      what the fee leaves of it, and an explicit amount is covered but for one case; with
      separate payers each covers its own part, and the amount does the same alone. */
  lemma {:induction false} SpendConserved(build: u64 -> Message, amount: SpendAmount, request: Request, source: Source)
    requires Resolve(build, amount, request, source).Ok?
    ensures
      var r := Resolve(build, amount, request, source).value;
      var fee := if request.samePayer then r.fee else 0;
      && (!request.samePayer ==> r.fee <= request.feeBalance)
      && match amount
         case Explicit(lamports) =>
           && r.spend == lamports
           && (r.spend + fee <= source.lamports || (request.samePayer && source.lamports == U64_MAX))
         case RentExempt =>
           fee <= source.lamports && source.lamports - r.spend - fee == Min(source.rentMinimum, source.lamports - fee)
         case _ => source.lamports == r.spend + fee + Untouchable(amount, source)
  {
  }

  /** When a resolution succeeds, once the dummy could be simulated and has a fee: one
      payer needs something to spend and the fee, a separate payer needs its fee. */
  lemma {:induction false} ResolvesExactly(build: u64 -> Message, amount: SpendAmount, request: Request, source: Source)
    requires !amount.Explicit?
    requires ResolveMessage(build, amount, request, Transferable(amount, source), RentToKeep(amount, source)).Ok?
    ensures
      var fee := ResolveMessage(build, amount, request, Transferable(amount, source),
                                RentToKeep(amount, source)).value.fee;
      Resolve(build, amount, request, source).Ok? <==>
        if request.samePayer
        then Untouchable(amount, source) < source.lamports && fee + Untouchable(amount, source) <= source.lamports
        else 0 < request.feeBalance && fee <= request.feeBalance
  {
  }

  /** An explicit amount is overdrawn exactly in the one case the saturating sum
      hides: a full 64-bit balance against a sum beyond 64 bits. */
  lemma {:induction false} OverdrawnExactly(build: u64 -> Message, amount: u64, request: Request, source: Source)
    requires request.samePayer
    requires ResolveMessage(build, Explicit(amount), request, source.lamports, 0).Ok?
    ensures
      var fee := ResolveMessage(build, Explicit(amount), request, source.lamports, 0).value.fee;
      var r := Resolve(build, Explicit(amount), request, source);
      && (r.Ok? && source.lamports < amount + fee <==> source.lamports == U64_MAX && U64_MAX < amount + fee)
      && (source.lamports < U64_MAX ==> (r.Ok? <==> source.lamports != 0 && amount + fee <= source.lamports))
  {
  }

  ghost function OneSignature(): Message { Message(Header(1, 0, 0), [], seq(32, _ => 0), []) }

  /** For example: all of a full balance, and a fee of 5000 on top. */
  lemma {:induction false} FullBalanceOverdrawn()
    ensures
      var request := Request(true, 0, seq(32, _ => 0), Default, None, FeeRules(5000, {}, _ => 0));
      var source := Source(U64_MAX, false, 0, 0, 0);
      var r := Resolve(_ => OneSignature(), Explicit(U64_MAX), request, source);
      r.Ok? && r.value.fee == 5000 && source.lamports < r.value.spend + r.value.fee
  {
    var rules := FeeRules(5000, {}, _ => 0);
    var m := OneSignature();
    var dummy := m.(recentBlockhash := seq(32, _ => 0));
    assert LimitIndex(dummy) == None;
    assert SignatureFee(dummy, rules) == 5000;
    assert PrioritizationFee(0, EffectiveLimit(dummy, rules, NO_REQUESTS)) == 0;
    assert FeeOf(dummy, rules) == Some(5000);
  }

  /** `AVAILABLE` never spends locked stake: what stays behind, after the fee too if
      the account pays it, is the locked stake plus rent, or all there was. */
  lemma {:induction false} LockedStakeStays(build: u64 -> Message, request: Request, source: Source)
    requires source.isStake && (source.active > 0 || source.activating > 0)
    requires Resolve(build, Available, request, source).Ok?
    ensures
      var r := Resolve(build, Available, request, source).value;
      var taken := if request.samePayer then r.spend + r.fee else r.spend;
      source.lamports - taken >= Min(source.lamports, source.active + source.activating + source.rentMinimum)
  {
    SpendConserved(build, Available, request, source);
    assert 0 < Untouchable(Available, source) || source.lamports == 0;
  }
}
