/** Account queries: the server selects by comparing bytes at fixed offsets and sends
    a slice of the data, the client decodes the slice and selects further.  Stake
    accounts and upgradeable-loader accounts. */
module AccountFilters {
  import opened Prelude
  import opened LoaderState

  datatype Memcmp = Memcmp(offset: nat, bytes: seq<byte>)

  /** `bytes_match`. */
  predicate Matches(filter: Memcmp, data: seq<byte>) {
    && filter.offset <= |data|
    && |filter.bytes| <= |data| - filter.offset
    && data[filter.offset..filter.offset + |filter.bytes|] == filter.bytes
  }

  predicate AllMatch(filters: seq<Memcmp>, data: seq<byte>) {
    forall i :: 0 <= i < |filters| ==> Matches(filters[i], data)
  }

  lemma {:induction false} MatchesTag(data: seq<byte>, tag: byte)
    ensures Matches(Memcmp(0, [tag, 0, 0, 0]), data) <==> Tag(data) == Some(tag)
  {
    if 4 <= |data| {
      TagBytes(data[..4], tag);
      assert data[0..4] == data[..4];
    }
  }

  // ----------------------------------------------------------------------
  // Stake accounts

  datatype Meta = Meta(rentExemptReserve: nat, staker: Pubkey, withdrawer: Pubkey,
                       lockupTime: nat, lockupEpoch: nat, custodian: Pubkey)

  datatype Delegation = Delegation(voter: Pubkey, stake: nat, activation: nat, deactivation: nat,
                                   reserved: seq<byte>, creditsObserved: nat, flags: byte)

  datatype StakeState =
    | Uninitialized
    | Initialized(meta: Meta)
    | Stake(meta: Meta, delegation: Delegation)
    | RewardsPool

  function DecodeMeta(data: seq<byte>): Meta
    requires 124 <= |data|
  {
    Meta(LittleEndian(data[4..12]), data[12..44], data[44..76],
         LittleEndian(data[76..84]), LittleEndian(data[84..92]), data[92..124])
  }

  function DecodeDelegation(data: seq<byte>): Delegation
    requires 197 <= |data|
  {
    Delegation(data[124..156], LittleEndian(data[156..164]), LittleEndian(data[164..172]),
               LittleEndian(data[172..180]), data[180..188], LittleEndian(data[188..196]), data[196])
  }

  function DecodeStake(data: seq<byte>): Option<StakeState> {
    match Tag(data)
    case None => None
    case Some(tag) =>
      if tag == 0 then Some(StakeState.Uninitialized)
      else if tag == 1 && 124 <= |data| then Some(Initialized(DecodeMeta(data)))
      else if tag == 2 && 197 <= |data| then Some(Stake(DecodeMeta(data), DecodeDelegation(data)))
      else if tag == 3 then Some(RewardsPool)
      else None
  }

  function EncodeMeta(meta: Meta): seq<byte> {
    ToLittleEndian(meta.rentExemptReserve, 8) + meta.staker + meta.withdrawer
    + ToLittleEndian(meta.lockupTime, 8) + ToLittleEndian(meta.lockupEpoch, 8) + meta.custodian
  }

  function EncodeDelegation(d: Delegation): seq<byte> {
    d.voter + ToLittleEndian(d.stake, 8) + ToLittleEndian(d.activation, 8) + ToLittleEndian(d.deactivation, 8)
    + d.reserved + ToLittleEndian(d.creditsObserved, 8) + [d.flags]
  }

  function EncodeStake(state: StakeState): seq<byte> {
    match state
    case Uninitialized => [0, 0, 0, 0]
    case Initialized(meta) => [1, 0, 0, 0] + EncodeMeta(meta)
    case Stake(meta, delegation) => [2, 0, 0, 0] + EncodeMeta(meta) + EncodeDelegation(delegation)
    case RewardsPool => [3, 0, 0, 0]
  }

  predicate MetaFits(meta: Meta) {
    meta.rentExemptReserve <= U64_MAX && meta.lockupTime <= U64_MAX && meta.lockupEpoch <= U64_MAX
  }

  predicate DelegationFits(d: Delegation) {
    && d.stake <= U64_MAX && d.activation <= U64_MAX && d.deactivation <= U64_MAX && d.creditsObserved <= U64_MAX
    && |d.reserved| == 8
  }

  lemma {:induction false} Field(n: nat)
    requires n <= U64_MAX
    ensures LittleEndian(ToLittleEndian(n, 8)) == n
  {
    SlotFits(n);
    LittleEndianRoundTrip(n, 8);
  }

  lemma {:induction false} MetaRoundTrip(front: seq<byte>, meta: Meta, rest: seq<byte>)
    requires |front| == 4 && MetaFits(meta)
    ensures DecodeMeta(front + EncodeMeta(meta) + rest) == meta
  {
    var data := front + EncodeMeta(meta) + rest;
    assert data[4..12] == ToLittleEndian(meta.rentExemptReserve, 8);
    assert data[12..44] == meta.staker && data[44..76] == meta.withdrawer;
    assert data[76..84] == ToLittleEndian(meta.lockupTime, 8);
    assert data[84..92] == ToLittleEndian(meta.lockupEpoch, 8);
    assert data[92..124] == meta.custodian;
    Field(meta.rentExemptReserve);
    Field(meta.lockupTime);
    Field(meta.lockupEpoch);
  }

  lemma {:induction false} DelegationRoundTrip(front: seq<byte>, d: Delegation, rest: seq<byte>)
    requires |front| == 124 && DelegationFits(d)
    ensures DecodeDelegation(front + EncodeDelegation(d) + rest) == d
  {
    var data := front + EncodeDelegation(d) + rest;
    assert data[124..156] == d.voter;
    assert data[156..164] == ToLittleEndian(d.stake, 8);
    assert data[164..172] == ToLittleEndian(d.activation, 8);
    assert data[172..180] == ToLittleEndian(d.deactivation, 8);
    assert data[180..188] == d.reserved;
    assert data[188..196] == ToLittleEndian(d.creditsObserved, 8);
    Field(d.stake);
    Field(d.activation);
    Field(d.deactivation);
    Field(d.creditsObserved);
  }

  /** Decoding inverts encoding for every stake account, whatever padding follows. */
  lemma {:induction false} StakeRoundTrip(state: StakeState, rest: seq<byte>)
    requires state.Initialized? || state.Stake? ==> MetaFits(state.meta)
    requires state.Stake? ==> DelegationFits(state.delegation)
    ensures DecodeStake(EncodeStake(state) + rest) == Some(state)
  {
    var data := EncodeStake(state) + rest;
    var tag: byte :=
      match state case Uninitialized => 0 case Initialized(_) => 1 case Stake(_, _) => 2 case RewardsPool => 3;
    assert data[..4] == [tag, 0, 0, 0];
    TagBytes(data[..4], tag);
    match state {
      case Initialized(meta) =>
        MetaRoundTrip([1, 0, 0, 0], meta, rest);
      case Stake(meta, delegation) =>
        var body := EncodeDelegation(delegation);
        MetaRoundTrip([2, 0, 0, 0], meta, body + rest);
        assert data == [2, 0, 0, 0] + EncodeMeta(meta) + (body + rest);
        DelegationRoundTrip([2, 0, 0, 0] + EncodeMeta(meta), delegation, rest);
      case _ =>
    }
  }

  /** The filters sent to the server.  A single vote account is filtered by the server,
      several are not; a withdraw authority always is. */
  ghost function StakeFilters(votes: set<Pubkey>, withdrawer: Option<Pubkey>): seq<Memcmp> {
    (if |votes| == 1
     then var voter :| voter in votes; [Memcmp(0, [2, 0, 0, 0]), Memcmp(124, voter)]
     else [])
    + (if withdrawer.Some? then [Memcmp(44, withdrawer.value)] else [])
  }

  /** The client's match on a decoded account. */
  predicate ClientKeeps(votes: set<Pubkey>, state: StakeState) {
    match state
    case Initialized(_) => votes == {}
    case Stake(_, delegation) => votes == {} || delegation.voter in votes
    case _ => false
  }

  /** What the command asks for, said on decoded accounts only. */
  predicate Wanted(votes: set<Pubkey>, withdrawer: Option<Pubkey>, state: StakeState) {
    match state
    case Initialized(meta) => votes == {} && (withdrawer.Some? ==> meta.withdrawer == withdrawer.value)
    case Stake(meta, delegation) =>
      && (votes == {} || delegation.voter in votes)
      && (withdrawer.Some? ==> meta.withdrawer == withdrawer.value)
    case _ => false
  }

  lemma {:induction false} SingleVote(votes: set<Pubkey>, voter: Pubkey, other: Pubkey)
    requires |votes| == 1 && voter in votes
    ensures other in votes <==> other == voter
  {
    var rest := votes - {voter};
    assert rest == {} by { assert |rest| == 0; }
    assert other in votes <==> other in rest || other == voter;
  }

  lemma {:induction false} MatchesVoter(votes: set<Pubkey>, data: seq<byte>)
    requires DecodeStake(data).Some? && ClientKeeps(votes, DecodeStake(data).value)
    ensures AllMatch(StakeFilters(votes, None), data)
  {
    if |votes| == 1 {
      var filters := StakeFilters(votes, None);
      var voter :| voter in votes && filters == [Memcmp(0, [2, 0, 0, 0]), Memcmp(124, voter)];
      MatchesTag(data, 2);
      SingleVote(votes, voter, DecodeStake(data).value.delegation.voter);
    }
  }

  /** For any bytes whatsoever: selecting by byte offsets on the server and by the
      client's match selects exactly the accounts that decoding everything and testing
      the decoded fields would select. */
  lemma {:induction false} StakePushdown(votes: set<Pubkey>, withdrawer: Option<Pubkey>, data: seq<byte>)
    ensures
      var state := DecodeStake(data);
      AllMatch(StakeFilters(votes, withdrawer), data) && state.Some? && ClientKeeps(votes, state.value) <==>
        state.Some? && Wanted(votes, withdrawer, state.value)
  {
    var state := DecodeStake(data);
    var filters := StakeFilters(votes, withdrawer);
    if state.Some? && ClientKeeps(votes, state.value) {
      MatchesVoter(votes, data);
      var front := StakeFilters(votes, None);
      var back := if withdrawer.Some? then [Memcmp(44, withdrawer.value)] else [];
      assert filters == front + back;
      assert AllMatch(filters, data) <==> AllMatch(back, data) by {
        assert forall i :: 0 <= i < |front| ==> Matches(front[i], data);
        assert forall i :: 0 <= i < |back| ==> filters[|front| + i] == back[i];
      }
      if withdrawer.Some? {
        assert AllMatch(back, data) <==> Matches(back[0], data);
      }
    }
  }

  // ----------------------------------------------------------------------
  // Loader accounts

  /** The data slice of the reply. */
  function Slice(data: seq<byte>, length: nat): seq<byte> {
    if length < |data| then data[..length] else data
  }

  function BufferFilters(authority: Option<Pubkey>): seq<Memcmp> {
    [Memcmp(0, [1, 0, 0, 0])]
    + (if authority.Some? then [Memcmp(4, [1]), Memcmp(5, authority.value)] else [])
  }

  function ProgramFilters(authority: Option<Pubkey>): seq<Memcmp> {
    [Memcmp(0, [3, 0, 0, 0])]
    + (if authority.Some? then [Memcmp(12, [1]), Memcmp(13, authority.value)] else [])
  }

  predicate HasAuthority(actual: Option<Pubkey>, asked: Option<Pubkey>) {
    asked.None? || actual == asked
  }

  lemma {:induction false} AllMatchLoader(tag: byte, at: nat, authority: Option<Pubkey>, data: seq<byte>)
    ensures
      var filters := [Memcmp(0, [tag, 0, 0, 0])]
        + (if authority.Some? then [Memcmp(at, [1]), Memcmp(at + 1, authority.value)] else []);
      AllMatch(filters, data) <==>
        && Tag(data) == Some(tag)
        && (authority.Some? ==> DecodeAuthority(data, at) == Some(authority))
  {
    var filters := [Memcmp(0, [tag, 0, 0, 0])]
      + (if authority.Some? then [Memcmp(at, [1]), Memcmp(at + 1, authority.value)] else []);
    MatchesTag(data, tag);
    if authority.Some? {
      assert AllMatch(filters, data) <==>
        Matches(filters[0], data) && Matches(filters[1], data) && Matches(filters[2], data);
      assert Matches(filters[1], data) <==> at < |data| && data[at] == 1 by {
        assert at < |data| ==> data[at..at + 1] == [data[at]];
      }
    } else {
      assert AllMatch(filters, data) <==> Matches(filters[0], data);
    }
  }

  /** The slice is long enough: an account that the filters let through decodes from
      its slice exactly as from all its data. */
  lemma {:induction false} SliceDecodes(data: seq<byte>)
    ensures Tag(data) == Some(1) ==> Decode(Slice(data, 37)) == Decode(data)
    ensures Tag(data) == Some(3) ==> Decode(Slice(data, 45)) == Decode(data)
  {
    if Tag(data) == Some(1) && 37 < |data| {
      var s := data[..37];
      assert s[..4] == data[..4] && s[5..37] == data[5..37];
    }
    if Tag(data) == Some(3) && 45 < |data| {
      var s := data[..45];
      assert s[..4] == data[..4] && s[4..12] == data[4..12] && s[13..45] == data[13..45];
    }
  }

  lemma {:induction false} LittleEndianBound(bytes: seq<byte>)
    ensures LittleEndian(bytes) < Pow256(|bytes|)
  {
    if bytes != [] {
      LittleEndianBound(bytes[1..]);
    }
  }

  lemma {:induction false} SlotAlwaysFits(data: seq<byte>)
    requires 12 <= |data|
    ensures LittleEndian(data[4..12]) <= U64_MAX
  {
    LittleEndianBound(data[4..12]);
    assert Pow256(4) == 0x1_0000_0000 by { assert Pow256(2) == 65536; }
    assert Pow256(6) == 65536 * Pow256(4);
    assert Pow256(8) == 65536 * Pow256(6);
  }

  /** Buffers and program data: filters, slice and decoding together list an account
      exactly when it decodes as one with the authority asked for.  With an authority
      no account that passes the filters fails to decode. */
  lemma {:induction false} LoaderPushdown(authority: Option<Pubkey>, data: seq<byte>)
    ensures
      var passes := AllMatch(BufferFilters(authority), data);
      var seen := Decode(Slice(data, 37));
      && (passes && seen.Some? <==>
            && Decode(data).Some? && Decode(data).value.Buffer?
            && HasAuthority(Decode(data).value.authority, authority))
      && (passes && seen.Some? ==> seen == Decode(data))
      && (authority.Some? && passes ==> seen.Some?)
    ensures
      var passes := AllMatch(ProgramFilters(authority), data);
      var seen := Decode(Slice(data, 45));
      && (passes && seen.Some? <==>
            && Decode(data).Some? && Decode(data).value.ProgramData?
            && HasAuthority(Decode(data).value.authority, authority))
      && (passes && seen.Some? ==> seen == Decode(data))
      && (authority.Some? && passes ==> seen.Some?)
  {
    AllMatchLoader(1, 4, authority, data);
    AllMatchLoader(3, 12, authority, data);
    SliceDecodes(data);
    if 12 <= |data| {
      SlotAlwaysFits(data);
    }
  }

  datatype Account = Account(address: Pubkey, data: seq<byte>)

  ghost predicate WantedBuffer(data: seq<byte>, authority: Option<Pubkey>) {
    && Decode(data).Some? && Decode(data).value.Buffer?
    && HasAuthority(Decode(data).value.authority, authority)
  }

  /** The accounts the server returns, in order. */
  function Served(accounts: seq<Account>, filters: seq<Memcmp>, length: nat): seq<Account> {
    if accounts == [] then []
    else
      (if AllMatch(filters, accounts[0].data)
       then [accounts[0].(data := Slice(accounts[0].data, length))] else [])
      + Served(accounts[1..], filters, length)
  }

  ghost function WantedBuffers(accounts: seq<Account>, authority: Option<Pubkey>): seq<(Pubkey, Option<Pubkey>)> {
    if accounts == [] then []
    else
      (if WantedBuffer(accounts[0].data, authority)
       then [(accounts[0].address, Decode(accounts[0].data).value.authority)] else [])
      + WantedBuffers(accounts[1..], authority)
  }

  /** The client's loop over the reply. */
  method ListBuffers(reply: seq<Account>) returns (r: Option<seq<(Pubkey, Option<Pubkey>)>>)
    ensures r == ListedFrom(reply, 0)
  {
    var buffers: seq<(Pubkey, Option<Pubkey>)> := [];
    assert forall rest: seq<(Pubkey, Option<Pubkey>)> :: buffers + rest == rest;
    for i := 0 to |reply|
      invariant ListedFrom(reply, 0) ==
                  match ListedFrom(reply, i) case None => None case Some(rest) => Some(buffers + rest)
    {
      match Decode(reply[i].data) {
        case Some(Buffer(authority)) =>
          ghost var before := buffers;
          buffers := buffers + [(reply[i].address, authority)];
          assert forall rest :: before + ([(reply[i].address, authority)] + rest) == buffers + rest;
        case _ =>
          return None;
      }
    }
    assert buffers + [] == buffers;
    r := Some(buffers);
  }

  function ListedFrom(reply: seq<Account>, i: nat): Option<seq<(Pubkey, Option<Pubkey>)>>
    decreases |reply| - i
  {
    if |reply| <= i then Some([])
    else
      match Decode(reply[i].data)
      case Some(Buffer(authority)) =>
        (match ListedFrom(reply, i + 1)
         case None => None
         case Some(rest) => Some([(reply[i].address, authority)] + rest))
      case _ => None
  }

  lemma {:induction false} ListedTail(reply: seq<Account>, i: nat)
    requires 0 < i <= |reply|
    ensures ListedFrom(reply, i) == ListedFrom(reply[1..], i - 1)
    decreases |reply| - i
  {
    if i < |reply| {
      ListedTail(reply, i + 1);
      assert reply[1..][i - 1] == reply[i];
    }
  }

  /** A broken account is one that is tagged as a buffer and does not decode. */
  ghost predicate Broken(data: seq<byte>) { Tag(data) == Some(1) && Decode(data).None? }

  lemma {:induction false} PassingAccounts(data: seq<byte>, authority: Option<Pubkey>)
    ensures AllMatch(BufferFilters(authority), data) <==>
              WantedBuffer(data, authority) || (authority.None? && Broken(data))
  {
    AllMatchLoader(1, 4, authority, data);
    LoaderPushdown(authority, data);
  }

  /** How the first account enters the listing. */
  lemma {:induction false} ListFirst(accounts: seq<Account>, authority: Option<Pubkey>)
    requires accounts != []
    ensures
      var listed := ListedFrom(Served(accounts, BufferFilters(authority), 37), 0);
      var rest := ListedFrom(Served(accounts[1..], BufferFilters(authority), 37), 0);
      var data := accounts[0].data;
      if WantedBuffer(data, authority)
      then listed == if rest.None? then None
                     else Some([(accounts[0].address, Decode(data).value.authority)] + rest.value)
      else listed == if authority.None? && Broken(data) then None else rest
  {
    var filters := BufferFilters(authority);
    var reply, others := Served(accounts, filters, 37), Served(accounts[1..], filters, 37);
    PassingAccounts(accounts[0].data, authority);
    if AllMatch(filters, accounts[0].data) {
      SliceDecodes(accounts[0].data);
      assert reply == [accounts[0].(data := Slice(accounts[0].data, 37))] + others;
      assert reply[1..] == others;
      ListedTail(reply, 1);
    } else {
      assert reply == others;
    }
  }

  /** The whole query: it fails exactly when no authority is asked for and some account
      is broken, and otherwise lists precisely the wanted buffers. */
  lemma {:induction false} BufferQuery(accounts: seq<Account>, authority: Option<Pubkey>)
    ensures ListedFrom(Served(accounts, BufferFilters(authority), 37), 0) ==
              if authority.None? && AnyBroken(accounts) then None
              else Some(WantedBuffers(accounts, authority))
  {
    if accounts != [] {
      BufferQuery(accounts[1..], authority);
      ListFirst(accounts, authority);
      AnyBrokenSplits(accounts);
      if !WantedBuffer(accounts[0].data, authority) {
        assert WantedBuffers(accounts, authority) == WantedBuffers(accounts[1..], authority);
      }
    }
  }

  ghost predicate AnyBroken(accounts: seq<Account>) { exists a :: a in accounts && Broken(a.data) }

  lemma {:induction false} AnyBrokenSplits(accounts: seq<Account>)
    requires accounts != []
    ensures AnyBroken(accounts) <==> Broken(accounts[0].data) || AnyBroken(accounts[1..])
  {
    assert accounts[0] in accounts;
    assert forall a :: a in accounts <==> a == accounts[0] || a in accounts[1..];
  }

  /** For example, a reply that holds an account of nothing but the tag. */
  lemma {:induction false} OneBrokenAccount(address: Pubkey)
    ensures ListedFrom(Served([Account(address, [1, 0, 0, 0])], BufferFilters(None), 37), 0) == None
  {
    var data: seq<byte> := [1, 0, 0, 0];
    var accounts := [Account(address, data)];
    assert Broken(data) by {
      assert data[..4] == data;
      TagBytes(data, 1);
    }
    assert accounts[0] in accounts;
    BufferQuery(accounts, None);
  }
}
