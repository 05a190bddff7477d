/** Compute-budget instructions inside a message: finding the unit-limit
    instruction, simulating, and overwriting its data. */
module ComputeBudget {
  import opened Prelude
  import opened LoaderState
  import opened Wire

  const COMPUTE_BUDGET_ID: Pubkey := [
    3, 6, 70, 111, 229, 33, 23, 50, 255, 236, 173, 186, 114, 195, 155, 231,
    188, 140, 229, 187, 197, 247, 18, 107, 44, 67, 155, 58, 64, 0, 0, 0]

  const MAX_COMPUTE_UNIT_LIMIT := 1_400_000

  datatype Budget =
    | Unused
    | HeapFrame(bytes: nat)
    | UnitLimit(units: nat)
    | UnitPrice(microLamports: nat)
    | LoadedSize(bytes: nat)

  /** A one-byte tag and a little-endian field; bytes behind it are ignored. */
  function ParseBudget(data: seq<byte>): Option<Budget> {
    if data == [] then None
    else if data[0] == 0 then Some(Unused)
    else if data[0] == 1 && 5 <= |data| then Some(HeapFrame(LittleEndian(data[1..5])))
    else if data[0] == 2 && 5 <= |data| then Some(UnitLimit(LittleEndian(data[1..5])))
    else if data[0] == 3 && 9 <= |data| then Some(UnitPrice(LittleEndian(data[1..9])))
    else if data[0] == 4 && 5 <= |data| then Some(LoadedSize(LittleEndian(data[1..5])))
    else None
  }

  function UnitLimitData(units: u32): (data: seq<byte>)
    ensures |data| == 5
  {
    [2] + ToLittleEndian(units, 4)
  }

  lemma UnitLimitRoundTrip(units: u32)
    ensures ParseBudget(UnitLimitData(units)) == Some(UnitLimit(units))
  {
    assert UnitLimitData(units)[1..5] == ToLittleEndian(units, 4);
    assert Pow256(4) == 0x1_0000_0000 by { assert Pow256(2) == 65536; }
    LittleEndianRoundTrip(units, 4);
  }

  function ProgramId(m: Message, index: nat): Option<Pubkey> {
    if index < |m.instructions| && m.instructions[index].programIdIndex < |m.accountKeys|
    then Some(m.accountKeys[m.instructions[index].programIdIndex])
    else None
  }

  predicate IsBudget(m: Message, index: nat) { ProgramId(m, index) == Some(COMPUTE_BUDGET_ID) }

  predicate IsUnitLimit(m: Message, index: nat) {
    && index < |m.instructions| && IsBudget(m, index)
    && var parsed := ParseBudget(m.instructions[index].data);
       parsed.Some? && parsed.value.UnitLimit?
  }

  /** The first unit-limit instruction at or behind `from`. */
  function LimitIndexFrom(m: Message, from: nat): (r: Option<nat>)
    ensures r.Some? ==> from <= r.value && IsUnitLimit(m, r.value)
    ensures forall j :: from <= j < (if r.Some? then r.value else |m.instructions|) ==> !IsUnitLimit(m, j)
    decreases |m.instructions| - from
  {
    if |m.instructions| <= from then None
    else if IsUnitLimit(m, from) then Some(from)
    else LimitIndexFrom(m, from + 1)
  }

  function LimitIndex(m: Message): Option<nat> { LimitIndexFrom(m, 0) }

  datatype LimitSetting = Default | Static(units: u32) | Simulated | SimulatedExtra(percent: byte)

  datatype Update = UpdatedIndex(index: nat) | NoInstructionFound | SimulationNotConfigured

  /** The limit to set from the units a simulation consumed; a count beyond 32 bits
      is an error, an inflated one is cut to its low 32 bits. */
  function SimulatedLimit(setting: LimitSetting, units: u64): Option<u32> {
    if U32_MAX < units then None
    else if setting.SimulatedExtra? then Some(AsU32(units * (100 + setting.percent) / 100))
    else Some(units)
  }

  /** `simulated` is what the simulation of the message would report. */
  function SimulateAndUpdate(setting: LimitSetting, simulated: Option<u64>, m: Message)
    : Result<(Update, Message), ()>
  {
    var index := LimitIndex(m);
    if index.None? then Ok((NoInstructionFound, m))
    else if setting.Static? || setting.Default? then Ok((SimulationNotConfigured, m))
    else if simulated.None? then Err(())
    else
      match SimulatedLimit(setting, simulated.value)
      case None => Err(())
      case Some(units) => Ok((UpdatedIndex(index.value), WithData(m, index.value, UnitLimitData(units))))
  }

  /** What comes of simulating a message: without a unit limit, or with a setting that
      does not ask for simulation, it stays as it is; a failed simulation or a count
      beyond 32 bits is an error; otherwise the first unit limit becomes the count, or the
      count raised by the extra percentage, which below 32 bits is never less. */
  lemma {:induction false} SimulationSets(setting: LimitSetting, simulated: Option<u64>, m: Message)
    ensures
      var r := SimulateAndUpdate(setting, simulated, m);
      if LimitIndex(m).None? || setting.Static? || setting.Default? then r.Ok? && r.value.1 == m
      else if simulated.None? || U32_MAX < simulated.value then r.Err?
      else
        var units: nat := simulated.value;
        var index := LimitIndex(m).value;
        && r.Ok? && r.value.0 == UpdatedIndex(index)
        && exists limit: u32 ::
             && r.value.1 == WithData(m, index, UnitLimitData(limit))
             && (setting.Simulated? ==> limit == units)
             && (setting.SimulatedExtra? && units * (100 + setting.percent) < 100 * 0x1_0000_0000 ==>
                   units <= limit && 100 * limit <= units * (100 + setting.percent) < 100 * (limit + 1))
  {
    if LimitIndex(m).Some? && !setting.Static? && !setting.Default? && simulated.Some? && simulated.value <= U32_MAX {
      var units: nat := simulated.value;
      var limit := SimulatedLimit(setting, units).value;
      if setting.SimulatedExtra? {
        ExtraIsMore(units, setting.percent);
      }
      assert SimulateAndUpdate(setting, simulated, m).value.1 == WithData(m, LimitIndex(m).value, UnitLimitData(limit));
    }
  }

  lemma {:induction false} ExtraIsMore(units: nat, percent: nat)
    ensures
      var raised := units * (100 + percent) / 100;
      units <= raised && 100 * raised <= units * (100 + percent) < 100 * (raised + 1)
  {
    assert units * (100 + percent) == 100 * units + units * percent;
    ProductNotNegative(units, percent);
  }

  /** Overwriting a unit limit keeps it the first unit-limit instruction, keeps every
      other instruction, and never makes the transaction longer. */
  lemma OverwriteKeepsShape(m: Message, index: nat, units: u32, signatures: seq<Signature64>)
    requires LimitIndex(m) == Some(index)
    ensures
      var m' := WithData(m, index, UnitLimitData(units));
      && LimitIndex(m') == Some(index)
      && ParseBudget(m'.instructions[index].data) == Some(UnitLimit(units))
      && m'.(instructions := m.instructions) == m && |m'.instructions| == |m.instructions|
      && (forall j :: 0 <= j < |m.instructions| && j != index ==> m'.instructions[j] == m.instructions[j])
      && |EncodeTransaction(signatures, m')| <= |EncodeTransaction(signatures, m)|
  {
    var m' := WithData(m, index, UnitLimitData(units));
    UnitLimitRoundTrip(units);
    assert IsUnitLimit(m', index);
    assert forall j :: 0 <= j < index ==> (IsUnitLimit(m', j) <==> IsUnitLimit(m, j));
    SizeOfWithData(signatures, m, index, UnitLimitData(units));
    ShortVecMonotone(5, |m.instructions[index].data|);
  }

  /** The messages with one instruction's data replaced in each, if it is a
      compute-budget instruction in each. */
  function Overwritten(messages: seq<Message>, index: nat, data: seq<byte>): Option<seq<Message>> {
    if forall j :: 0 <= j < |messages| ==> IsBudget(messages[j], index)
    then Some(seq(|messages|, j requires 0 <= j < |messages| && IsBudget(messages[j], index) =>
                                WithData(messages[j], index, data)))
    else None
  }

  /** Carrying the limit found for the first write message over to all of them; a
      message with anything but a compute-budget instruction there is a panic. */
  method OverwriteAll(messages: seq<Message>, index: nat, data: seq<byte>) returns (patched: Option<seq<Message>>)
    ensures patched == Overwritten(messages, index, data)
    ensures patched.Some? <==> forall m :: m in messages ==> IsBudget(m, index)
    ensures patched.Some? ==>
              && |patched.value| == |messages|
              && forall j :: 0 <= j < |messages| ==>
                   && IsBudget(messages[j], index) && index < |messages[j].instructions|
                   && patched.value[j] == WithData(messages[j], index, data)
  {
    var done: seq<Message> := [];
    for i := 0 to |messages|
      invariant |done| == i
      invariant forall j :: 0 <= j < i ==>
          && IsBudget(messages[j], index) && index < |messages[j].instructions|
          && done[j] == WithData(messages[j], index, data)
    {
      if !IsBudget(messages[i], index) { return None; }
      done := done + [WithData(messages[i], index, data)];
    }
    assert Overwritten(messages, index, data).value == done;
    patched := Some(done);
  }
}
