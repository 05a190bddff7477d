/** Messages and transactions and their wire form: compact-array lengths are
    written seven bits at a time, everything else has a fixed width. */
module Wire {
  import opened Prelude
  import opened LoaderState

  datatype CompiledInstruction = CompiledInstruction(programIdIndex: byte, accounts: seq<byte>, data: seq<byte>)

  datatype Header = Header(numRequiredSignatures: byte, numReadonlySigned: byte, numReadonlyUnsigned: byte)

  datatype Message = Message(
    header: Header,
    accountKeys: seq<Pubkey>,
    recentBlockhash: Pubkey,
    instructions: seq<CompiledInstruction>)

  type Signature64 = s: seq<byte> | |s| == 64 witness seq(64, _ => 0)

  const PACKET_DATA_SIZE := 1232

  /** The compact-array length prefix. */
  function ShortVec(n: nat): seq<byte> {
    if n < 128 then [n] else [128 + n % 128] + ShortVec(n / 128)
  }

  function EncodeInstruction(ix: CompiledInstruction): seq<byte> {
    [ix.programIdIndex] + (ShortVec(|ix.accounts|) + ix.accounts) + (ShortVec(|ix.data|) + ix.data)
  }

  function EncodeInstructions(ixs: seq<CompiledInstruction>): seq<byte> {
    if ixs == [] then [] else EncodeInstruction(ixs[0]) + EncodeInstructions(ixs[1..])
  }

  function EncodeKeys(keys: seq<Pubkey>): (bytes: seq<byte>)
    ensures |bytes| == 32 * |keys|
  {
    if keys == [] then [] else keys[0] + EncodeKeys(keys[1..])
  }

  function EncodeSignatures(signatures: seq<Signature64>): (bytes: seq<byte>)
    ensures |bytes| == 64 * |signatures|
  {
    if signatures == [] then [] else signatures[0] + EncodeSignatures(signatures[1..])
  }

  function EncodeMessage(m: Message): seq<byte> {
    [m.header.numRequiredSignatures, m.header.numReadonlySigned, m.header.numReadonlyUnsigned]
    + (ShortVec(|m.accountKeys|) + EncodeKeys(m.accountKeys))
    + m.recentBlockhash
    + (ShortVec(|m.instructions|) + EncodeInstructions(m.instructions))
  }

  function EncodeTransaction(signatures: seq<Signature64>, m: Message): seq<byte> {
    ShortVec(|signatures|) + EncodeSignatures(signatures) + EncodeMessage(m)
  }

  /** One signature per required signer, as a transaction that is sent carries. */
  ghost predicate FullySigned(signatures: seq<Signature64>, m: Message) {
    |signatures| == m.header.numRequiredSignatures
  }

  function EmptySignatures(m: Message): (signatures: seq<Signature64>)
    ensures |signatures| == m.header.numRequiredSignatures
  {
    seq(m.header.numRequiredSignatures, _ => seq(64, _ => 0))
  }

  /** The message with other data in one instruction. */
  function WithData(m: Message, index: nat, data: seq<byte>): (r: Message)
    requires index < |m.instructions|
  {
    m.(instructions := m.instructions[index := m.instructions[index].(data := data)])
  }

  /** The data of a loader `Write`: tag, offset, a 64-bit length, the bytes. */
  function WriteData(offset: u32, bytes: seq<byte>): (data: seq<byte>)
    ensures |data| == 16 + |bytes|
  {
    ToLittleEndian(1, 4) + ToLittleEndian(offset, 4) + ToLittleEndian(|bytes|, 8) + bytes
  }

  /** `calculate_max_chunk_size` of a message whose write carries no bytes yet. */
  function MaxChunkSize(baseline: Message): nat {
    SatSub(SatSub(PACKET_DATA_SIZE, |EncodeTransaction(EmptySignatures(baseline), baseline)|), 1)
  }

  // ----------------------------------------------------------------------
  // Sizes

  /** Reading a compact length back: its value and how many bytes it took. */
  function ReadShortVec(bytes: seq<byte>): Option<(nat, nat)> {
    if bytes == [] then None
    else if bytes[0] < 128 then Some((bytes[0], 1))
    else
      match ReadShortVec(bytes[1..])
      case None => None
      case Some((n, used)) => Some((bytes[0] - 128 + 128 * n, used + 1))
  }

  lemma {:induction false} ShortVecRoundTrip(n: nat, rest: seq<byte>)
    ensures ReadShortVec(ShortVec(n) + rest) == Some((n, |ShortVec(n)|))
  {
    var bytes := ShortVec(n) + rest;
    if 128 <= n {
      ShortVecRoundTrip(n / 128, rest);
      assert bytes[1..] == ShortVec(n / 128) + rest;
    }
  }

  /** Reading the data of a loader `Write` back. */
  function ReadWrite(data: seq<byte>): Option<(nat, seq<byte>)> {
    if |data| < 16 || LittleEndian(data[..4]) != 1 || LittleEndian(data[8..16]) != |data| - 16 then None
    else Some((LittleEndian(data[4..8]), data[16..]))
  }

  lemma {:induction false} WriteRoundTrip(offset: u32, bytes: seq<byte>)
    requires |bytes| <= U64_MAX
    ensures ReadWrite(WriteData(offset, bytes)) == Some((offset, bytes))
  {
    var data := WriteData(offset, bytes);
    assert data[..4] == ToLittleEndian(1, 4) && data[4..8] == ToLittleEndian(offset, 4);
    assert data[8..16] == ToLittleEndian(|bytes|, 8) && data[16..] == bytes;
    assert Pow256(4) == 0x1_0000_0000 by { assert Pow256(2) == 65536; }
    LittleEndianRoundTrip(1, 4);
    LittleEndianRoundTrip(offset, 4);
    SlotFits(|bytes|);
    LittleEndianRoundTrip(|bytes|, 8);
  }

  function InstructionBytes(ixs: seq<CompiledInstruction>): nat {
    if ixs == [] then 0
    else
      1 + |ShortVec(|ixs[0].accounts|)| + |ixs[0].accounts| + |ShortVec(|ixs[0].data|)| + |ixs[0].data|
      + InstructionBytes(ixs[1..])
  }

  lemma {:induction false} InstructionsSize(ixs: seq<CompiledInstruction>)
    ensures |EncodeInstructions(ixs)| == InstructionBytes(ixs)
  {
    if ixs != [] {
      InstructionsSize(ixs[1..]);
    }
  }

  /** The size of a transaction: 64 bytes a signature, 32 a key, 3 for the header, 32 for
      the blockhash, the instructions, and three length prefixes. */
  lemma {:induction false} TransactionSize(signatures: seq<Signature64>, m: Message)
    ensures |EncodeTransaction(signatures, m)| ==
              |ShortVec(|signatures|)| + 64 * |signatures| + 3 + |ShortVec(|m.accountKeys|)| + 32 * |m.accountKeys|
              + 32 + |ShortVec(|m.instructions|)| + InstructionBytes(m.instructions)
  {
    InstructionsSize(m.instructions);
  }

  lemma {:induction false} ShortVecLength(n: nat)
    ensures n < 128 ==> |ShortVec(n)| == 1
    ensures 128 <= n < 16384 ==> |ShortVec(n)| == 2
  {
    if 128 <= n < 16384 {
      assert n / 128 < 128;
    }
  }

  lemma {:induction false} ShortVecMonotone(a: nat, b: nat)
    requires a <= b
    ensures |ShortVec(a)| <= |ShortVec(b)|
    decreases b
  {
    if 128 <= a {
      ShortVecMonotone(a / 128, b / 128);
    }
  }

  lemma {:induction false} InstructionsAppend(a: seq<CompiledInstruction>, b: seq<CompiledInstruction>)
    ensures EncodeInstructions(a + b) == EncodeInstructions(a) + EncodeInstructions(b)
  {
    if a == [] {
      assert a + b == b;
    } else {
      assert (a + b)[1..] == a[1..] + b;
      InstructionsAppend(a[1..], b);
    }
  }

  /** Exchanging one instruction's data changes the size of the transaction by the
      change of the data and of its length prefix, and by nothing else. */
  lemma {:induction false} SizeOfWithData(signatures: seq<Signature64>, m: Message, index: nat, data: seq<byte>)
    requires index < |m.instructions|
    ensures
      var before := m.instructions[index].data;
      |EncodeTransaction(signatures, WithData(m, index, data))| ==
        |EncodeTransaction(signatures, m)|
        + (|ShortVec(|data|)| + |data|) - (|ShortVec(|before|)| + |before|)
  {
    var ixs := m.instructions;
    var changed := ixs[index].(data := data);
    assert ixs == ixs[..index] + ([ixs[index]] + ixs[index + 1..]);
    assert ixs[index := changed] == ixs[..index] + ([changed] + ixs[index + 1..]);
    InstructionsAppend(ixs[..index], [ixs[index]] + ixs[index + 1..]);
    InstructionsAppend(ixs[..index], [changed] + ixs[index + 1..]);
    assert ([ixs[index]] + ixs[index + 1..])[1..] == ixs[index + 1..];
    assert ([changed] + ixs[index + 1..])[1..] == ixs[index + 1..];
  }

  lemma {:induction false} SignaturesBySize(a: seq<Signature64>, b: seq<Signature64>, m: Message)
    requires |a| == |b|
    ensures |EncodeTransaction(a, m)| == |EncodeTransaction(b, m)|
  {
  }

  /** A write fits its packet exactly when it is no longer than the chunk size,
      provided its length needs two bytes; the shorter ones all fit.  So the chunk
      size is safe, and unless it is tiny no larger one would be. */
  lemma {:induction false} WritesFitPackets(baseline: Message, index: nat, offset: u32, bytes: seq<byte>,
                                            signatures: seq<Signature64>)
    requires index < |baseline.instructions| && baseline.instructions[index].data == WriteData(0, [])
    requires 0 < MaxChunkSize(baseline)
    requires FullySigned(signatures, baseline)
    ensures
      var size := |EncodeTransaction(signatures, WithData(baseline, index, WriteData(offset, bytes)))|;
      && (|bytes| <= MaxChunkSize(baseline) ==> size <= PACKET_DATA_SIZE)
      && (128 <= 16 + |bytes| ==> (size <= PACKET_DATA_SIZE <==> |bytes| <= MaxChunkSize(baseline)))
  {
    SizeOfWithData(signatures, baseline, index, WriteData(offset, bytes));
    SignaturesBySize(signatures, EmptySignatures(baseline), baseline);
    ShortVecLength(16);
    if |bytes| < 16384 - 16 {
      ShortVecLength(16 + |bytes|);
    } else {
      ShortVecLength(128);
      ShortVecMonotone(128, 16 + |bytes|);
    }
  }
}
