/** The account states of the upgradeable loader and their byte layout: a 4-byte
    tag, then the fields; an optional authority is one option byte and, if
    present, 32 key bytes.  Bytes behind the fields are ignored. */
module LoaderState {
  import opened Prelude

  type Pubkey = k: seq<byte> | |k| == 32 witness seq(32, _ => 0)

  datatype State =
    | Uninitialized
    | Buffer(authority: Option<Pubkey>)
    | Program(programdata: Pubkey)
    | ProgramData(slot: u64, authority: Option<Pubkey>)

  const BUFFER_METADATA := 37
  const PROGRAMDATA_METADATA := 45
  const MAX_PERMITTED_DATA_LENGTH := 10 * 1024 * 1024

  function LittleEndian(bytes: seq<byte>): nat {
    if bytes == [] then 0 else bytes[0] + 256 * LittleEndian(bytes[1..])
  }

  function ToLittleEndian(n: nat, width: nat): (bytes: seq<byte>)
    ensures |bytes| == width
  {
    if width == 0 then [] else [n % 256] + ToLittleEndian(n / 256, width - 1)
  }

  function Pow256(width: nat): nat { if width == 0 then 1 else 256 * Pow256(width - 1) }

  lemma {:induction false} LittleEndianRoundTrip(n: nat, width: nat)
    requires n < Pow256(width)
    ensures LittleEndian(ToLittleEndian(n, width)) == n
  {
    if width != 0 {
      LittleEndianRoundTrip(n / 256, width - 1);
    }
  }

  /** Four bytes are the little-endian form of a small tag exactly when they are
      the tag followed by three zeros. */
  lemma TagBytes(bytes: seq<byte>, tag: byte)
    requires |bytes| == 4
    ensures LittleEndian(bytes) == tag <==> bytes == [tag, 0, 0, 0]
  {
    var b0: int, b1: int, b2: int, b3: int := bytes[0], bytes[1], bytes[2], bytes[3];
    assert bytes[3..][1..] == [] && bytes[2..][1..] == bytes[3..] && bytes[1..][1..] == bytes[2..];
    assert LittleEndian(bytes[3..]) == b3;
    assert LittleEndian(bytes[2..]) == b2 + 256 * b3;
    assert LittleEndian(bytes[1..]) == b1 + 256 * (b2 + 256 * b3);
    assert LittleEndian(bytes) == b0 + 256 * (b1 + 256 * (b2 + 256 * b3));
  }

  function Tag(data: seq<byte>): Option<nat> {
    if |data| < 4 then None else Some(LittleEndian(data[..4]))
  }

  function DecodeAuthority(data: seq<byte>, at: nat): Option<Option<Pubkey>> {
    if |data| <= at then None
    else if data[at] == 0 then Some(None)
    else if data[at] == 1 && at + 33 <= |data| then Some(Some(data[at + 1..at + 33]))
    else None
  }

  function Decode(data: seq<byte>): Option<State> {
    match Tag(data)
    case None => None
    case Some(tag) =>
      if tag == 0 then Some(Uninitialized)
      else if tag == 1 then
        match DecodeAuthority(data, 4)
        case None => None
        case Some(authority) => Some(Buffer(authority))
      else if tag == 2 then
        if |data| < 36 then None else Some(Program(data[4..36]))
      else if tag == 3 && 12 <= |data| then
        match DecodeAuthority(data, 12)
        case None => None
        case Some(authority) => DecodeSlot(data, authority)
      else None
  }

  function DecodeSlot(data: seq<byte>, authority: Option<Pubkey>): Option<State>
    requires 12 <= |data|
  {
    var slot := LittleEndian(data[4..12]);
    if slot <= U64_MAX then Some(ProgramData(slot, authority)) else None
  }

  function EncodeAuthority(authority: Option<Pubkey>): seq<byte> {
    match authority
    case None => [0]
    case Some(key) => [1] + key
  }

  function Encode(state: State): seq<byte> {
    match state
    case Uninitialized => [0, 0, 0, 0]
    case Buffer(authority) => [1, 0, 0, 0] + EncodeAuthority(authority)
    case Program(programdata) => [2, 0, 0, 0] + programdata
    case ProgramData(slot, authority) => [3, 0, 0, 0] + ToLittleEndian(slot, 8) + EncodeAuthority(authority)
  }

  lemma AuthorityRoundTrip(front: seq<byte>, authority: Option<Pubkey>, rest: seq<byte>)
    ensures DecodeAuthority(front + EncodeAuthority(authority) + rest, |front|) == Some(authority)
  {
    var data := front + EncodeAuthority(authority) + rest;
    if authority.Some? {
      assert data[|front| + 1..|front| + 33] == authority.value;
    }
  }

  /** Decoding inverts encoding, whatever follows. */
  lemma StateRoundTrip(state: State, rest: seq<byte>)
    ensures Decode(Encode(state) + rest) == Some(state)
  {
    var data := Encode(state) + rest;
    var tag: byte :=
      match state case Uninitialized => 0 case Buffer(_) => 1 case Program(_) => 2 case ProgramData(_, _) => 3;
    assert data[..4] == [tag, 0, 0, 0];
    TagBytes(data[..4], tag);
    match state {
      case Uninitialized =>
      case Buffer(authority) =>
        AuthorityRoundTrip([1, 0, 0, 0], authority, rest);
      case Program(programdata) =>
        assert data[4..36] == programdata;
      case ProgramData(slot, authority) =>
        assert data[4..12] == ToLittleEndian(slot, 8);
        SlotFits(slot);
        LittleEndianRoundTrip(slot, 8);
        AuthorityRoundTrip([3, 0, 0, 0] + ToLittleEndian(slot, 8), authority, rest);
    }
  }

  lemma SlotFits(slot: u64)
    ensures slot < Pow256(8)
  {
    assert Pow256(4) == 0x1_0000_0000 by { assert Pow256(2) == 65536; }
    assert Pow256(6) == 65536 * Pow256(4);
    assert Pow256(8) == 65536 * Pow256(6);
  }
}
