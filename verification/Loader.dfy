/** The part of the on-chain upgradeable loader that an upload relies on: writing
    into a buffer account, and turning the buffer into program data. */
module Loader {
  import opened Prelude
  import opened LoaderState
  import opened ChunkPlan

  datatype LoaderError =
    | InvalidAccountData
    | Immutable
    | IncorrectAuthority
    | AccountDataTooSmall
    | InvalidArgument
    | OtherCheckFailed    // accounts, rent, slot or program bits; decided elsewhere

  /** The `Write` instruction, signed by `authority`, on a buffer account's data. */
  function WriteBuffer(account: seq<byte>, authority: Pubkey, w: Write): Result<seq<byte>, LoaderError> {
    match Decode(account)
    case Some(Buffer(None)) => Err(Immutable)
    case Some(Buffer(Some(owner))) =>
      var start: nat := BUFFER_METADATA + w.offset;
      var end: nat := start + |w.bytes|;
      if owner != authority then Err(IncorrectAuthority)
      else if |account| < end then Err(AccountDataTooSmall)
      else Ok(account[..start] + w.bytes + account[end..])
    case _ => Err(InvalidAccountData)
  }

  /** What `DeployWithMaxDataLen` stores behind the program data account's
      metadata: the buffer's bytes, then zeros up to the requested length. */
  function DeployBits(account: seq<byte>, authority: Pubkey, maxDataLen: nat, othersPass: bool)
    : Result<seq<byte>, LoaderError>
  {
    match Decode(account)
    case Some(Buffer(owner)) =>
      var length := SatSub(|account|, BUFFER_METADATA);
      if owner != Some(authority) then Err(IncorrectAuthority)
      else if length == 0 then Err(InvalidAccountData)
      else if maxDataLen < length then Err(AccountDataTooSmall)
      else if MAX_PERMITTED_DATA_LENGTH < PROGRAMDATA_METADATA + maxDataLen then Err(InvalidArgument)
      else if !othersPass then Err(OtherCheckFailed)
      else Ok(account[BUFFER_METADATA..] + Zeros(maxDataLen - length))
    case _ => Err(InvalidArgument)
  }

  /** What `Upgrade` stores behind the metadata of a program data account of
      `programdataLen` bytes: the buffer's bytes, and zeros in all the rest. */
  function UpgradeBits(account: seq<byte>, authority: Pubkey, programdataLen: nat, othersPass: bool)
    : Result<seq<byte>, LoaderError>
  {
    match Decode(account)
    case Some(Buffer(owner)) =>
      var length := SatSub(|account|, BUFFER_METADATA);
      if owner != Some(authority) then Err(IncorrectAuthority)
      else if length == 0 then Err(InvalidAccountData)
      else if programdataLen < PROGRAMDATA_METADATA + length then Err(AccountDataTooSmall)
      else if !othersPass then Err(OtherCheckFailed)
      else Ok(account[BUFFER_METADATA..] + Zeros(programdataLen - PROGRAMDATA_METADATA - length))
    case _ => Err(InvalidArgument)
  }

  function Zeros(n: nat): (z: seq<byte>)
    ensures |z| == n
  {
    seq(n, _ => 0)
  }

  /** A buffer account that `authority` may write, with room for its metadata. */
  ghost predicate IsBuffer(account: seq<byte>, authority: Pubkey) {
    BUFFER_METADATA <= |account| && Decode(account) == Some(Buffer(Some(authority)))
  }

  /** The account with other program bytes behind the same metadata. */
  function WithBytes(account: seq<byte>, bytes: seq<byte>): seq<byte>
    requires BUFFER_METADATA <= |account|
  {
    account[..BUFFER_METADATA] + bytes
  }

  lemma {:induction false} DecodeReadsMetadata(account: seq<byte>, bytes: seq<byte>, authority: Pubkey)
    requires IsBuffer(account, authority)
    ensures IsBuffer(WithBytes(account, bytes), authority)
  {
    var other := WithBytes(account, bytes);
    assert other[..4] == account[..4];
    assert other[5..37] == account[5..37];
  }

  /** On a buffer of the authority a write is accepted exactly when it ends inside
      the account; then it lands in the program bytes and leaves the metadata. */
  lemma {:induction false} WriteLands(account: seq<byte>, authority: Pubkey, w: Write)
    requires IsBuffer(account, authority)
    ensures
      var view := account[BUFFER_METADATA..];
      && (WriteBuffer(account, authority, w).Ok? <==> End(w) <= |view|)
      && (End(w) <= |view| ==>
            && WriteBuffer(account, authority, w) == Ok(WithBytes(account, Land(view, w)))
            && IsBuffer(WithBytes(account, Land(view, w)), authority))
  {
    var view := account[BUFFER_METADATA..];
    if End(w) <= |view| {
      DecodeReadsMetadata(account, Land(view, w), authority);
      SpliceBehind(account, BUFFER_METADATA, w.offset, w.bytes);
    }
  }

  /** Writing behind a header is writing into what follows the header. */
  lemma {:induction false} SpliceBehind(account: seq<byte>, header: nat, offset: nat, bytes: seq<byte>)
    requires header + offset + |bytes| <= |account|
    ensures
      var view := account[header..];
      account[..header + offset] + bytes + account[header + offset + |bytes|..] ==
        account[..header] + (view[..offset] + bytes + view[offset + |bytes|..])
  {
    var view := account[header..];
    assert account[..header + offset] == account[..header] + view[..offset];
    assert account[header + offset + |bytes|..] == view[offset + |bytes|..];
  }

  /** The account after the cluster executed the given writes one after another;
      a refused write leaves the account as it was. */
  function ExecuteAll(account: seq<byte>, authority: Pubkey, log: seq<Write>): seq<byte>
    decreases |log|
  {
    if log == [] then account
    else
      match WriteBuffer(account, authority, log[0])
      case Ok(next) => ExecuteAll(next, authority, log[1..])
      case Err(_) => ExecuteAll(account, authority, log[1..])
  }

  /** Executing writes on the account is landing them in its program bytes. */
  lemma {:induction false} ExecuteAllLands(account: seq<byte>, authority: Pubkey, log: seq<Write>)
    requires IsBuffer(account, authority)
    ensures ExecuteAll(account, authority, log) ==
              WithBytes(account, LandAll(account[BUFFER_METADATA..], log))
    decreases |log|
  {
    var view := account[BUFFER_METADATA..];
    if log == [] {
      assert account == WithBytes(account, view);
    } else {
      WriteLands(account, authority, log[0]);
      if End(log[0]) <= |view| {
        var next := WithBytes(account, Land(view, log[0]));
        assert next[BUFFER_METADATA..] == Land(view, log[0]);
        ExecuteAllLands(next, authority, log[1..]);
        assert next[..BUFFER_METADATA] == account[..BUFFER_METADATA];
      } else {
        ExecuteAllLands(account, authority, log[1..]);
      }
    }
  }

  /** Program data decided by the buffer: what the loader stores starts with the
      program whenever the buffer does, followed by the buffer's other bytes and zeros. */
  lemma {:induction false} StoredBits(account: seq<byte>, authority: Pubkey, program: seq<byte>, length: nat,
                                      othersPass: bool)
    requires BUFFER_METADATA <= |account|
    requires program <= account[BUFFER_METADATA..]
    ensures
      var tail := account[BUFFER_METADATA + |program|..];
      var deployed := DeployBits(account, authority, length, othersPass);
      var upgraded := UpgradeBits(account, authority, length, othersPass);
      && (deployed.Ok? ==>
            && |deployed.value| == length
            && deployed.value == program + tail + Zeros(length - |program| - |tail|))
      && (upgraded.Ok? ==>
            && |upgraded.value| == length - PROGRAMDATA_METADATA
            && upgraded.value == program + tail + Zeros(length - PROGRAMDATA_METADATA - |program| - |tail|))
  {
    var tail := account[BUFFER_METADATA + |program|..];
    assert account[BUFFER_METADATA..] == program + tail;
  }

  /** Which deploys are accepted: a buffer of the authority that is not empty, a length
      that holds it and fits an account, and whatever else is checked. */
  lemma {:induction false} DeployAccepted(account: seq<byte>, authority: Pubkey, maxDataLen: nat, othersPass: bool)
    ensures DeployBits(account, authority, maxDataLen, othersPass).Ok? <==>
              && IsBuffer(account, authority) && BUFFER_METADATA < |account|
              && |account| - BUFFER_METADATA <= maxDataLen
              && PROGRAMDATA_METADATA + maxDataLen <= MAX_PERMITTED_DATA_LENGTH && othersPass
  {
  }

  /** So a deploy at the default length of a buffer that holds the program and nothing
      behind it goes through unless another check fails. */
  lemma {:induction false} DefaultDeployGoesThrough(account: seq<byte>, authority: Pubkey, program: seq<byte>,
                                                    othersPass: bool)
    requires IsBuffer(account, authority) && account[BUFFER_METADATA..] == program && program != []
    requires PROGRAMDATA_METADATA + |program| <= MAX_PERMITTED_DATA_LENGTH
    ensures DeployBits(account, authority, |program|, othersPass) ==
              if othersPass then Ok(program) else Err(OtherCheckFailed)
  {
    if othersPass {
      DefaultDeployIsExact(account, authority, program, othersPass);
    }
  }

  /** A write is accepted exactly from the authority of a buffer it ends inside. */
  lemma {:induction false} WriteAccepted(account: seq<byte>, authority: Pubkey, w: Write)
    ensures WriteBuffer(account, authority, w).Ok? <==>
              IsBuffer(account, authority) && BUFFER_METADATA + End(w) <= |account|
  {
  }

  /** A deploy that asks for exactly the program's length succeeds only with a
      buffer of that length, and then stores the program file and nothing else. */
  lemma {:induction false} DefaultDeployIsExact(account: seq<byte>, authority: Pubkey, program: seq<byte>,
                                                othersPass: bool)
    requires BUFFER_METADATA <= |account|
    requires program <= account[BUFFER_METADATA..]
    requires DeployBits(account, authority, |program|, othersPass).Ok?
    ensures DeployBits(account, authority, |program|, othersPass).value == program
  {
    StoredBits(account, authority, program, |program|, othersPass);
    assert account[BUFFER_METADATA + |program|..] == [];
  }
}
