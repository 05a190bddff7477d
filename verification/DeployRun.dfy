/** A whole upload, from the program file to the moment the final deploy or
    upgrade message is sent (or a buffer upload reports success): fetching the
    buffer, planning, the initial message, and the parallel writes. */
module DeployRun {
  import opened Prelude
  import opened LoaderState
  import opened ChunkPlan
  import opened Loader
  import opened ParallelSend
  import ExtendProgram

  datatype Kind = Deploy | Upgrade | BufferOnly

  /** What one invocation starts from.  `account` is the buffer account as it is
      fetched, if there is one; `stale` are writes of earlier attempts that may still land. */
  datatype Upload = Upload(
    kind: Kind,
    program: seq<byte>,
    account: Option<seq<byte>>,
    loaderOwned: bool,
    authority: Pubkey,
    bufferSigner: bool,
    alsoExtends: bool,           // an extend instruction is part of the initial message
    chunkSize: u64,
    maxSignAttempts: nat,
    multiThreaded: bool,
    commitment: Commitment,      // at which accounts are fetched and messages confirmed
    stale: set<Write>)

  /** Everything that the network decides. */
  datatype Replies = Replies(
    initialSimulated: bool,
    initialConfirmed: bool,
    writesSimulated: bool,
    steps: seq<Step<Write>>,     // the run of the parallel sender
    standing: Option<seq<byte>>, // what becomes of the account seen at the lowest commitment level
    late: seq<Write>)            // stale writes landing before the final message is executed

  /** The program bytes of a usable buffer, `None` if there is no account yet, an
      error if the account cannot take this program. */
  function Fetch(u: Upload): Result<Option<seq<byte>>, ()> {
    match u.account
    case None => Ok(None)
    case Some(account) =>
      if !u.loaderOwned then Err(())
      else if Decode(account) != Some(Buffer(Some(u.authority))) then Err(())
      else if |account| < BUFFER_METADATA + |u.program| then Err(())
      else Ok(Some(account[BUFFER_METADATA..]))
  }

  /** An upgrade without the buffer's key plans nothing. */
  predicate Plans(u: Upload) { u.kind.Upgrade? ==> u.bufferSigner }

  function Compared(u: Upload, fetched: Option<seq<byte>>): seq<byte> {
    match fetched
    case None => Zeros(|u.program|)
    case Some(bytes) => bytes
  }

  predicate NeedsInitial(u: Upload, fetched: Option<seq<byte>>) {
    fetched.None? || (u.kind.Upgrade? && u.alsoExtends)
  }

  function CreatedAccount(u: Upload): seq<byte> {
    Encode(Buffer(Some(u.authority))) + Zeros(|u.program|)
  }

  predicate CanCreate(u: Upload) { BUFFER_METADATA + |u.program| <= MAX_PERMITTED_DATA_LENGTH }

  /** The buffer account once the initial message, if any, is confirmed; `None` if
      the upload stops there.  The system program refuses accounts beyond the maximum. */
  function AfterInitial(u: Upload, fetched: Option<seq<byte>>, t: Replies): Option<seq<byte>>
    requires fetched.Some? ==> u.account.Some?
  {
    if !NeedsInitial(u, fetched) then u.account
    else if !u.bufferSigner || !t.initialSimulated || !t.initialConfirmed then None
    else if fetched.Some? then u.account
    else if CanCreate(u) then Some(CreatedAccount(u))
    else None
  }

  function SendConfig(u: Upload, writes: seq<Write>): Config<Write> {
    Config(writes, u.maxSignAttempts, u.multiThreaded, u.commitment, u.stale)
  }

  /** The account that the chain keeps.  At the lowest level what was fetched, and the
      initial message, may have been seen in blocks that are abandoned. */
  function Standing(u: Upload, seen: Option<seq<byte>>, t: Replies): Option<seq<byte>> {
    if Final(u.commitment) then seen else t.standing
  }

  function Written(u: Upload, account: Option<seq<byte>>, log: seq<Write>): Option<seq<byte>> {
    if account.None? then None else Some(ExecuteAll(account.value, u.authority, log))
  }

  datatype Stage = Stopped | Past(account: Option<seq<byte>>)

  /** Where an invocation gets: past all its writes, with the buffer account as it
      then is on chain, or stopped by an error (or a panic) before. */
  ghost function PastWrites(u: Upload, t: Replies): Stage {
    match Fetch(u)
    case Err(_) => Stopped
    case Ok(fetched) =>
      if !Plans(u) then
        Past(Written(u, Standing(u, u.account, t), t.late))
      else
        var plan := Plan(u.program, Compared(u, fetched), u.chunkSize);
        var account := AfterInitial(u, fetched, t);
        if plan.None? || account.None? then Stopped
        else if plan.value == [] then Past(Written(u, Standing(u, account, t), t.late))
        else if !t.writesSimulated then Stopped
        else
          var end := Run(SendConfig(u, plan.value), Start(), t.steps);
          if end.Some? && ReportsSuccess(end.value)
          then Past(Written(u, Standing(u, account, t), end.value.log + t.late))
          else Stopped
  }

  ghost predicate Possible(u: Upload, t: Replies) {
    forall w :: w in t.late ==> w in u.stale
  }

  /** The buffer on chain starts with the program file. */
  ghost predicate Uploaded(u: Upload, account: Option<seq<byte>>) {
    && account.Some? && BUFFER_METADATA <= |account.value|
    && u.program <= account.value[BUFFER_METADATA..]
  }

  /** In every run, the final message is sent only onto a buffer that holds the file. */
  ghost predicate Safe(u: Upload) {
    forall t :: Possible(u, t) && PastWrites(u, t).Past? ==> Uploaded(u, PastWrites(u, t).account)
  }

  /** Accounts on chain are bounded. */
  ghost predicate WellFormed(u: Upload) {
    u.account.Some? ==> |u.account.value| <= MAX_PERMITTED_DATA_LENGTH
  }

  /** No write that an earlier attempt left in flight can spoil this file: each is
      refused for its length or agrees with the file where it overlaps it.  Nothing in
      the program ensures this; the earlier attempt may have uploaded another file. */
  ghost predicate Harmless(u: Upload) {
    match Fetch(u)
    case Err(_) => true
    case Ok(fetched) => forall w :: w in u.stale ==> Agrees(u.program, |Compared(u, fetched)|, w)
  }

  /** A write left in flight reaches the byte. */
  ghost predicate StaleReaches(u: Upload, length: nat, k: nat) {
    exists w :: w in u.stale && End(w) <= length && Covers(w, k)
  }

  /** The run of the parallel sender, started at all or not. */
  ghost function SenderRun(u: Upload, t: Replies): Option<ParallelSend.State<Write>> {
    match Fetch(u)
    case Err(_) => None
    case Ok(fetched) =>
      match Plan(u.program, Compared(u, fetched), u.chunkSize)
      case None => None
      case Some(plan) => Run(SendConfig(u, plan), Start(), t.steps)
  }

  ghost predicate NoWriteFailed(u: Upload, t: Replies) {
    SenderRun(u, t).Some? ==> NothingFailed(SenderRun(u, t).value)
  }

  /** Safe, but only about runs in which no write transaction fails on chain. */
  ghost predicate SafeUnlessFailed(u: Upload) {
    forall t :: Possible(u, t) && PastWrites(u, t).Past? && NoWriteFailed(u, t) ==>
      Uploaded(u, PastWrites(u, t).account)
  }

  /** Some replies take the invocation past its writes. */
  ghost predicate CanPass(u: Upload) {
    match Fetch(u)
    case Err(_) => false
    case Ok(fetched) =>
      Plans(u) ==>
        && Plan(u.program, Compared(u, fetched), u.chunkSize).Some?
        && (NeedsInitial(u, fetched) ==> u.bufferSigner)
        && (fetched.None? ==> CanCreate(u))
  }

  /** The buffer holds the program before anything is written. */
  ghost predicate AlreadyThere(u: Upload) {
    match Fetch(u)
    case Err(_) => false
    case Ok(fetched) =>
      (Plans(u) || fetched.Some?) && u.program <= Compared(u, fetched)
  }

  /** The account before the writes is a buffer whose bytes are those compared. */
  lemma {:induction false} StartAccount(u: Upload, fetched: Option<seq<byte>>, t: Replies)
    requires WellFormed(u) && Fetch(u) == Ok(fetched) && AfterInitial(u, fetched, t).Some?
    ensures
      var account := AfterInitial(u, fetched, t).value;
      && IsBuffer(account, u.authority) && account[BUFFER_METADATA..] == Compared(u, fetched)
      && |u.program| <= |Compared(u, fetched)| && |u.program| <= U32_MAX + 1
  {
    if fetched.None? {
      StateRoundTrip(Buffer(Some(u.authority)), Zeros(|u.program|));
      assert |Encode(Buffer(Some(u.authority)))| == BUFFER_METADATA;
    }
  }

  lemma {:induction false} LandsAsPlanned(u: Upload, account: seq<byte>, log: seq<Write>)
    requires IsBuffer(account, u.authority)
    ensures
      var end := ExecuteAll(account, u.authority, log);
      |end| == |account| && end[BUFFER_METADATA..] == LandAll(account[BUFFER_METADATA..], log)
  {
    ExecuteAllLands(account, u.authority, log);
  }

  /** What may have landed: everything planned but `missing`, what is in flight from
      before, and nothing else. */
  ghost predicate Landed(u: Upload, plan: seq<Write>, log: seq<Write>, missing: Option<Write>) {
    && (forall w :: w in log ==> w in plan || w in u.stale)
    && (forall w :: w in plan && w !in log ==> missing == Some(w))
  }

  /** Then every program byte that `missing` does not cover is right, and every byte
      behind the program that nothing in flight reaches is as before. */
  lemma {:induction false} LandedResult(u: Upload, bytes: seq<byte>, plan: seq<Write>, log: seq<Write>,
                                        missing: Option<Write>, k: nat)
    requires |u.program| <= |bytes| && |u.program| <= U32_MAX + 1 && k < |bytes|
    requires Plan(u.program, bytes, u.chunkSize) == Some(plan) && Landed(u, plan, log, missing)
    requires forall w :: w in u.stale ==> Agrees(u.program, |bytes|, w)
    ensures k < |u.program| && (missing.Some? ==> !Covers(missing.value, k)) ==>
              LandAll(bytes, log)[k] == u.program[k]
    ensures |u.program| <= k && !StaleReaches(u, |bytes|, k) ==> LandAll(bytes, log)[k] == bytes[k]
  {
    PlanFaithful(u.program, bytes, u.chunkSize);
    FaithfulAgree(u.program, |bytes|, plan);
    AgreedBytes(u.program, bytes, log, k);
    if k < |u.program| && bytes[k] != u.program[k] {
      PlanCovers(u.program, bytes, u.chunkSize, 0, k);
      var w :| w in plan && Covers(w, k);
      assert Faithful(u.program, w);
    }
    if |u.program| <= k && Reached(log, |bytes|, k) {
      var w :| w in log && End(w) <= |bytes| && Covers(w, k);
      assert w in plan ==> Faithful(u.program, w);
    }
  }

  /** The buffer the invocation leaves, given what landed. */
  ghost predicate Leaves(u: Upload, t: Replies, bytes: seq<byte>, missing: Option<Write>) {
    && PastWrites(u, t).Past? && PastWrites(u, t).account.Some?
    && var account := PastWrites(u, t).account.value;
    && |account| == BUFFER_METADATA + |bytes| && |u.program| <= |bytes|
    && (forall k :: 0 <= k < |u.program| && (missing.Some? ==> !Covers(missing.value, k)) ==>
          account[BUFFER_METADATA..][k] == u.program[k])
    && (forall k :: |u.program| <= k < |bytes| && !StaleReaches(u, |bytes|, k) ==>
          account[BUFFER_METADATA..][k] == bytes[k])
  }

  lemma {:induction false} LandedLeaves(u: Upload, t: Replies, bytes: seq<byte>, plan: seq<Write>, account: seq<byte>,
                                        log: seq<Write>, missing: Option<Write>)
    requires |u.program| <= |bytes| && |u.program| <= U32_MAX + 1
    requires Plan(u.program, bytes, u.chunkSize) == Some(plan) && Landed(u, plan, log, missing)
    requires forall w :: w in u.stale ==> Agrees(u.program, |bytes|, w)
    requires IsBuffer(account, u.authority) && account[BUFFER_METADATA..] == bytes
    requires PastWrites(u, t) == Past(Some(ExecuteAll(account, u.authority, log)))
    ensures Leaves(u, t, bytes, missing)
  {
    LandsAsPlanned(u, account, log);
    forall k | 0 <= k < |bytes|
      ensures k < |u.program| && (missing.Some? ==> !Covers(missing.value, k)) ==>
                LandAll(bytes, log)[k] == u.program[k]
      ensures |u.program| <= k && !StaleReaches(u, |bytes|, k) ==> LandAll(bytes, log)[k] == bytes[k]
    {
      LandedResult(u, bytes, plan, log, missing, k);
    }
  }

  /** On any runtime, at a final commitment level, every run that gets past its writes
      leaves the file in the buffer except for at most one write, which failed on chain
      and went unreported. */
  lemma {:induction false} AtMostOneWriteMissing(u: Upload, t: Replies) returns (missing: Option<Write>)
    requires WellFormed(u) && Possible(u, t) && PastWrites(u, t).Past? && Plans(u) && Harmless(u)
    requires Final(u.commitment)
    requires AlreadyThere(u) || 1 <= u.maxSignAttempts
    ensures Leaves(u, t, Compared(u, Fetch(u).value), missing)
    ensures missing.Some? ==>
              && u.multiThreaded && !AlreadyThere(u)
              && SenderRun(u, t).Some? && FailedOnChain(SenderRun(u, t).value, missing.value)
  {
    var fetched := Fetch(u).value;
    StartAccount(u, fetched, t);
    var account := AfterInitial(u, fetched, t).value;
    var bytes := Compared(u, fetched);
    var plan := Plan(u.program, bytes, u.chunkSize).value;
    missing := None;
    if plan == [] {
      LandedLeaves(u, t, bytes, plan, account, t.late, missing);
    } else {
      NotThereYet(u, bytes);
      var cfg := SendConfig(u, plan);
      var end := Run(cfg, Start(), t.steps).value;
      SuccessIsTrue(cfg, t.steps);
      OnlyGivenMessagesLand(cfg, t.steps);
      if w :| w in plan && w !in end.log {
        missing := Some(w);
      }
      LandedLeaves(u, t, bytes, plan, account, end.log + t.late, missing);
    }
  }

  /** Something is planned only if the buffer does not start with the file. */
  lemma {:induction false} NotThereYet(u: Upload, bytes: seq<byte>)
    requires |u.program| <= |bytes| && |u.program| <= U32_MAX + 1
    requires Plan(u.program, bytes, u.chunkSize).Some?
    ensures Plan(u.program, bytes, u.chunkSize).value == [] <==> u.program <= bytes
  {
    NothingPlanned(u.program, bytes, u.chunkSize);
    assert u.program <= bytes <==> bytes[..|u.program|] == u.program;
  }

  /** Where also confirmations cannot be overtaken, or no write transaction failed, nothing
      is missing: the file is in the buffer and what lay behind it is untouched but for
      writes of earlier attempts that reach behind it. */
  lemma {:induction false} PastMeansWritten(u: Upload, t: Replies)
    requires WellFormed(u) && Possible(u, t) && PastWrites(u, t).Past? && Plans(u) && Harmless(u)
    requires Final(u.commitment)
    requires AlreadyThere(u) || (1 <= u.maxSignAttempts && (!u.multiThreaded || NoWriteFailed(u, t)))
    ensures Leaves(u, t, Compared(u, Fetch(u).value), None)
    ensures Uploaded(u, PastWrites(u, t).account)
  {
    var missing := AtMostOneWriteMissing(u, t);
    LeavesTheFile(u, t, Compared(u, Fetch(u).value));
  }

  lemma {:induction false} LeavesTheFile(u: Upload, t: Replies, bytes: seq<byte>)
    requires Leaves(u, t, bytes, None)
    ensures Uploaded(u, PastWrites(u, t).account)
  {
    var view := PastWrites(u, t).account.value[BUFFER_METADATA..];
    assert view[..|u.program|] == u.program;
  }

  lemma {:induction false} UnplannedKeepsBytes(u: Upload, t: Replies)
    requires WellFormed(u) && Possible(u, t) && !Plans(u) && AlreadyThere(u) && Harmless(u)
    requires Final(u.commitment)
    ensures PastWrites(u, t).Past? && Uploaded(u, PastWrites(u, t).account)
  {
    var account := u.account.value;
    LandsAsPlanned(u, account, t.late);
    var view := account[BUFFER_METADATA..];
    forall k | 0 <= k < |u.program| ensures LandAll(view, t.late)[k] == u.program[k] {
      AgreedBytes(u.program, view, t.late, k);
    }
    assert LandAll(view, t.late)[..|u.program|] == u.program;
  }

  // ----------------------------------------------------------------------
  // What must have happened before the final message

  /** Which accounts are taken for a usable buffer, and which are an error. */
  lemma {:induction false} FetchExactly(u: Upload, bytes: seq<byte>)
    ensures Fetch(u) == Ok(None) <==> u.account.None?
    ensures Fetch(u) == Ok(Some(bytes)) <==>
              && u.account.Some? && u.loaderOwned && IsBuffer(u.account.value, u.authority)
              && |u.program| <= |bytes| && u.account.value == u.account.value[..BUFFER_METADATA] + bytes
  {
    if u.account.Some? && BUFFER_METADATA <= |u.account.value| {
      var account := u.account.value;
      assert account == account[..BUFFER_METADATA] + account[BUFFER_METADATA..];
      if account == account[..BUFFER_METADATA] + bytes {
        assert account[BUFFER_METADATA..] == bytes;
      }
    }
  }

  /** The final message is sent exactly if the buffer could be fetched and, unless nothing
      is planned at all: the chunk size is positive; where a buffer has to be created or
      an upgrade extends, its key is there and the initial message was simulated and
      confirmed, and a created buffer is not too large; and where the fetched buffer does
      not hold the file, the first write was simulated and the sender reported success. */
  lemma {:induction false} PastExactly(u: Upload, t: Replies)
    requires WellFormed(u)
    ensures PastWrites(u, t).Past? <==>
              && Fetch(u).Ok?
              && (!(u.kind.Upgrade? && !u.bufferSigner) ==>
                    var f := Fetch(u).value;
                    && u.chunkSize != 0
                    && (f.None? || (u.kind.Upgrade? && u.alsoExtends) ==>
                          u.bufferSigner && t.initialSimulated && t.initialConfirmed)
                    && (f.None? ==> BUFFER_METADATA + |u.program| <= MAX_PERMITTED_DATA_LENGTH)
                    && (!(u.program <= Compared(u, f)) ==>
                          t.writesSimulated && SenderRun(u, t).Some? && ReportsSuccess(SenderRun(u, t).value)))
  {
    if Fetch(u).Ok? && Plans(u) {
      var f := Fetch(u).value;
      if AfterInitial(u, f, t).Some? && u.chunkSize != 0 {
        StartAccount(u, f, t);
        NotThereYet(u, Compared(u, f));
      }
    }
  }

  // ----------------------------------------------------------------------
  // Runs that get past their writes

  /** An invocation that can pass does, under replies that fail nothing. */
  lemma {:induction false} PassingReplies(u: Upload) returns (t: Replies)
    requires WellFormed(u) && CanPass(u)
    ensures Possible(u, t) && PastWrites(u, t).Past? && NoWriteFailed(u, t) && t.late == []
  {
    var fetched := Fetch(u).value;
    t := Replies(true, true, true, [], u.account, []);
    if Plan(u.program, Compared(u, fetched), u.chunkSize).Some? {
      var plan := Plan(u.program, Compared(u, fetched), u.chunkSize).value;
      var steps := SuccessIsPossible(SendConfig(u, plan));
      t := t.(steps := steps);
    }
  }

  /** `CanPass` is exactly that some replies take the invocation past its writes. */
  lemma {:induction false} CanPassExactly(u: Upload)
    requires WellFormed(u)
    ensures CanPass(u) <==> exists t :: Possible(u, t) && PastWrites(u, t).Past?
  {
    if CanPass(u) {
      var t := PassingReplies(u);
    }
  }

  // ----------------------------------------------------------------------
  // Runs that get past their writes without the file

  /** With an untrustworthy sender, or without a plan, some run goes past its writes
      with the file not in the buffer; without a signing round, or at the lowest
      commitment level, nothing need fail. */
  lemma {:induction false} SomeRunIsWrong(u: Upload) returns (t: Replies)
    requires WellFormed(u) && CanPass(u) && !AlreadyThere(u)
    requires !(Plans(u) && 1 <= u.maxSignAttempts && Final(u.commitment) && !u.multiThreaded)
    ensures Possible(u, t) && PastWrites(u, t).Past? && !Uploaded(u, PastWrites(u, t).account)
    ensures !(Plans(u) && 1 <= u.maxSignAttempts && Final(u.commitment)) ==> NoWriteFailed(u, t)
  {
    if Plans(u) {
      t := WrongWithPlan(u);
    } else {
      t := Replies(true, true, true, [], u.account, []);
    }
  }

  /** Here the account itself stands, and a write is missing. */
  lemma {:induction false} WrongWithPlan(u: Upload) returns (t: Replies)
    requires WellFormed(u) && CanPass(u) && !AlreadyThere(u)
    requires Plans(u) && (u.maxSignAttempts == 0 || u.multiThreaded || !Final(u.commitment))
    ensures Possible(u, t) && PastWrites(u, t).Past? && !Uploaded(u, PastWrites(u, t).account)
    ensures u.maxSignAttempts == 0 || !Final(u.commitment) ==> NoWriteFailed(u, t)
  {
    var fetched := Fetch(u).value;
    t := Replies(true, true, true, [], None, []);
    StartAccount(u, fetched, t);
    var account := AfterInitial(u, fetched, t).value;
    var bytes := Compared(u, fetched);
    var plan := Plan(u.program, bytes, u.chunkSize).value;
    NotThereYet(u, bytes);
    var steps := FalseSuccess(SendConfig(u, plan));
    t := t.(steps := steps, standing := Some(account));
    var log := Run(SendConfig(u, plan), Start(), steps).value.log;
    assert log + [] == log;
    var w :| w in plan && w !in log;
    LandsAsPlanned(u, account, log);
    MissingWriteShows(u.program, bytes, u.chunkSize, log, w);
  }

  /** At the lowest commitment level it does not help to find the file already there:
      the buffer may have been created in a block that is abandoned. */
  lemma {:induction false} AccountAbandoned(u: Upload) returns (t: Replies)
    requires WellFormed(u) && CanPass(u) && !Final(u.commitment)
    ensures Possible(u, t) && PastWrites(u, t).Past? && NoWriteFailed(u, t)
    ensures !Uploaded(u, PastWrites(u, t).account)
  {
    var calm := PassingReplies(u);
    t := calm.(standing := None);
    assert SenderRun(u, t) == SenderRun(u, calm);
  }

  lemma {:induction false} MissingWriteShows(program: seq<byte>, bytes: seq<byte>, size: nat, log: seq<Write>, w: Write)
    requires 0 < size && |program| <= |bytes| && |program| <= U32_MAX + 1
    requires AllIn(log, PlanFrom(program, bytes, size, 0))
    requires w in PlanFrom(program, bytes, size, 0) && w !in log
    ensures !(program <= LandAll(bytes, log))
  {
    PlanHolds(program, bytes, size, 0, w);
    ChunkAdvances(program, bytes, size, log, w.offset);
    assert PlanChunk(program, LandAll(bytes, log), size, w.offset) == Without([w], log) == [w];
  }

  /** A write left in flight that does not agree with the file spoils it by landing
      last, whatever landed before. */
  lemma {:induction false} LandsLast(program: seq<byte>, bytes: seq<byte>, log: seq<Write>, w: Write)
    requires |program| <= |bytes| && !Agrees(program, |bytes|, w)
    ensures !(program <= LandAll(bytes, log + [w]))
  {
    LandLast(bytes, log, w);
    var k :| w.offset <= k < End(w) && k < |program| && w.bytes[k - w.offset] != program[k];
    LandedByte(LandAll(bytes, log), w, k);
    assert LandAll(bytes, log + [w])[k] != program[k];
  }

  /** What an invocation leaves that passes without late writes, and what it leaves if
      one more write lands late. */
  lemma {:induction false} OneMoreWrite(u: Upload, calm: Replies, w: Write) returns (account: seq<byte>,
                                        log: seq<Write>)
    requires WellFormed(u) && PastWrites(u, calm).Past? && calm.late == [] && (Plans(u) || AlreadyThere(u))
    requires Final(u.commitment)
    ensures PastWrites(u, calm.(late := [w])) == Past(Some(ExecuteAll(account, u.authority, log + [w])))
    ensures IsBuffer(account, u.authority) && account[BUFFER_METADATA..] == Compared(u, Fetch(u).value)
  {
    var fetched := Fetch(u).value;
    log := [];
    assert [] + [w] == [w];
    if Plans(u) {
      StartAccount(u, fetched, calm);
      account := AfterInitial(u, fetched, calm).value;
      var plan := Plan(u.program, Compared(u, fetched), u.chunkSize).value;
      if plan != [] {
        log := Run(SendConfig(u, plan), Start(), calm.steps).value.log;
      }
    } else {
      account := u.account.value;
    }
  }

  /** So with such a write any invocation that can pass can pass without the file. */
  lemma {:induction false} HarmDone(u: Upload) returns (t: Replies)
    requires WellFormed(u) && CanPass(u) && !Harmless(u) && (Plans(u) || AlreadyThere(u))
    requires Final(u.commitment)
    ensures Possible(u, t) && PastWrites(u, t).Past? && NoWriteFailed(u, t)
    ensures !Uploaded(u, PastWrites(u, t).account)
  {
    var bytes := Compared(u, Fetch(u).value);
    var w :| w in u.stale && !Agrees(u.program, |bytes|, w);
    var calm := PassingReplies(u);
    t := calm.(late := [w]);
    assert SenderRun(u, t) == SenderRun(u, calm);
    var account, log := OneMoreWrite(u, calm, w);
    LandsAsPlanned(u, account, log + [w]);
    ProgramFits(u, calm);
    LandsLast(u.program, bytes, log, w);
  }

  lemma {:induction false} ProgramFits(u: Upload, t: Replies)
    requires WellFormed(u) && PastWrites(u, t).Past? && (Plans(u) || AlreadyThere(u))
    ensures |u.program| <= |Compared(u, Fetch(u).value)|
  {
  }

  // ----------------------------------------------------------------------
  // The exact conditions

  lemma {:induction false} TrustedRunIsRight(u: Upload, t: Replies)
    requires WellFormed(u) && Possible(u, t) && PastWrites(u, t).Past? && Harmless(u)
    requires Final(u.commitment)
    requires
      || AlreadyThere(u)
      || (Plans(u) && 1 <= u.maxSignAttempts && (!u.multiThreaded || NoWriteFailed(u, t)))
    ensures Uploaded(u, PastWrites(u, t).account)
  {
    if Plans(u) {
      PastMeansWritten(u, t);
    } else {
      UnplannedKeepsBytes(u, t);
    }
  }

  /** Sending the final message only onto a buffer that holds the program file is
      guaranteed exactly when the invocation cannot get that far at all, or it works at a
      final commitment level, nothing in flight from earlier attempts contradicts the
      file, and either the file is already there or the invocation plans its writes, may
      sign at least once, and its sender's confirmations cannot be overtaken. */
  lemma {:induction false} SafeExactly(u: Upload)
    requires WellFormed(u)
    ensures Safe(u) <==>
              || !CanPass(u)
              || (Final(u.commitment) && Harmless(u) &&
                  (AlreadyThere(u) || (Plans(u) && 1 <= u.maxSignAttempts && !u.multiThreaded)))
  {
    CanPassExactly(u);
    if CanPass(u) {
      if !Final(u.commitment) {
        var t := AccountAbandoned(u);
      } else if AlreadyThere(u) || (Plans(u) && 1 <= u.maxSignAttempts && !u.multiThreaded) {
        if Harmless(u) {
          forall t | Possible(u, t) && PastWrites(u, t).Past? ensures Uploaded(u, PastWrites(u, t).account) {
            TrustedRunIsRight(u, t);
          }
        } else {
          var t := HarmDone(u);
        }
      } else {
        var t := SomeRunIsWrong(u);
      }
    }
  }

  /** On any runtime, the same holds of the runs in which no write transaction fails on
      chain exactly when, at a final level and with nothing in flight that contradicts the
      file, the writes are planned with at least one signing round. */
  lemma {:induction false} SafeUnlessFailedExactly(u: Upload)
    requires WellFormed(u)
    ensures SafeUnlessFailed(u) <==>
              || !CanPass(u)
              || (Final(u.commitment) && Harmless(u) &&
                  (AlreadyThere(u) || (Plans(u) && 1 <= u.maxSignAttempts)))
  {
    CanPassExactly(u);
    if CanPass(u) {
      if !Final(u.commitment) {
        var t := AccountAbandoned(u);
      } else if AlreadyThere(u) || (Plans(u) && 1 <= u.maxSignAttempts) {
        if Harmless(u) {
          forall t | Possible(u, t) && PastWrites(u, t).Past? && NoWriteFailed(u, t)
            ensures Uploaded(u, PastWrites(u, t).account)
          {
            TrustedRunIsRight(u, t);
          }
        } else {
          var t := HarmDone(u);
        }
      } else {
        var t := SomeRunIsWrong(u);
      }
    }
  }

  /** An input that fails although its sender can be trusted and the file is there: a
      write of another file to the same buffer is still in flight. */
  lemma {:induction false} OtherFileInFlight(authority: Pubkey)
    ensures
      var account := Encode(Buffer(Some(authority))) + [7];
      var u := Upload(Deploy, [7], Some(account), true, authority, true, false, 900, 5, false, Confirmed,
                      {Write(0, [8])});
      WellFormed(u) && CanPass(u) && AlreadyThere(u) && !Harmless(u) && !Safe(u)
  {
    var account := Encode(Buffer(Some(authority))) + [7];
    var w := Write(0, [8]);
    var u := Upload(Deploy, [7], Some(account), true, authority, true, false, 900, 5, false, Confirmed, {w});
    StateRoundTrip(Buffer(Some(authority)), [7]);
    assert account[BUFFER_METADATA..] == [7];
    assert Fetch(u) == Ok(Some([7]));
    assert !Agrees([7], 1, w) by { assert w.bytes[0 - w.offset] != u.program[0]; }
    assert w in u.stale;
    SafeExactly(u);
  }

  /** From file to program data: a deploy with the default maximum length that gets
      past its writes and is accepted by the loader stores exactly the file. */
  lemma {:induction false} DeployStoresTheFile(u: Upload, t: Replies, othersPass: bool)
    requires WellFormed(u) && Possible(u, t) && u.kind.Deploy? && PastWrites(u, t).Past? && Harmless(u)
    requires Final(u.commitment)
    requires AlreadyThere(u) || (1 <= u.maxSignAttempts && (!u.multiThreaded || NoWriteFailed(u, t)))
    ensures
      var account := PastWrites(u, t).account;
      account.Some? &&
      var stored := DeployBits(account.value, u.authority, |u.program|, othersPass);
      stored.Ok? ==> stored.value == u.program
  {
    PastMeansWritten(u, t);
    var account := PastWrites(u, t).account.value;
    if DeployBits(account, u.authority, |u.program|, othersPass).Ok? {
      DefaultDeployIsExact(account, u.authority, u.program, othersPass);
    }
  }

  /** An upgrade that gets past its writes stores the file, then the rest of the buffer,
      then zeros; the rest is what the buffer held from the start, except where writes
      of earlier attempts reach behind the file. */
  lemma {:induction false} UpgradeStoresTheFile(u: Upload, t: Replies, programdataLen: nat, othersPass: bool)
    requires WellFormed(u) && Possible(u, t) && u.kind.Upgrade? && u.bufferSigner && PastWrites(u, t).Past?
    requires Harmless(u)
    requires Final(u.commitment)
    requires AlreadyThere(u) || (1 <= u.maxSignAttempts && (!u.multiThreaded || NoWriteFailed(u, t)))
    ensures
      var account := PastWrites(u, t).account;
      var bytes := Compared(u, Fetch(u).value);
      account.Some? &&
      var stored := UpgradeBits(account.value, u.authority, programdataLen, othersPass);
      stored.Ok? ==>
        && |u.program| <= |bytes| <= |stored.value| == programdataLen - PROGRAMDATA_METADATA
        && stored.value[..|u.program|] == u.program
        && (forall k :: |u.program| <= k < |bytes| && !StaleReaches(u, |bytes|, k) ==> stored.value[k] == bytes[k])
        && stored.value[|bytes|..] == Zeros(|stored.value| - |bytes|)
  {
    PastMeansWritten(u, t);
    var account := PastWrites(u, t).account.value;
    var stored := UpgradeBits(account, u.authority, programdataLen, othersPass);
    if stored.Ok? {
      var view := account[BUFFER_METADATA..];
      assert stored.value == view + Zeros(programdataLen - PROGRAMDATA_METADATA - |view|);
      assert view[..|u.program|] == u.program;
      assert stored.value[..|u.program|] == view[..|u.program|];
    }
  }

  /** With auto-extension: an upgrade whose buffer has the program's own length, and
      whose initial message extends the program data account if that is needed, passes
      the loader's size checks, and then the account holds the file and zeros. */
  lemma {:induction false} AutoExtendedUpgradeStores(u: Upload, t: Replies, a: ExtendProgram.Account,
                                                     minimumFeature: bool, othersPass: bool)
    requires WellFormed(u) && Possible(u, t) && u.kind.Upgrade? && u.bufferSigner && PastWrites(u, t).Past?
    requires Final(u.commitment) && Harmless(u)
    requires AlreadyThere(u) || (1 <= u.maxSignAttempts && (!u.multiThreaded || NoWriteFailed(u, t)))
    requires ExtendProgram.AutoExtend(Some(a), |u.program|, minimumFeature).Ok?
    requires u.alsoExtends == ExtendProgram.AutoExtend(Some(a), |u.program|, minimumFeature).value.Some?
    requires |Compared(u, Fetch(u).value)| == |u.program| && u.program != []
    ensures u.alsoExtends ==> t.initialConfirmed
    ensures
      var account := PastWrites(u, t).account;
      account.Some? &&
      var length := ExtendProgram.ExtendedLength(a, |u.program|, minimumFeature);
      var stored := UpgradeBits(account.value, u.authority, length, othersPass);
      && (stored.Ok? <==> othersPass)
      && (stored.Ok? ==>
            && |u.program| <= length - PROGRAMDATA_METADATA
            && stored.value == u.program + Zeros(length - PROGRAMDATA_METADATA - |u.program|))
  {
    var length := ExtendProgram.ExtendedLength(a, |u.program|, minimumFeature);
    UpgradeStoresTheFile(u, t, length, othersPass);
    StaysABuffer(u, t);
    var account := PastWrites(u, t).account.value;
    ExtendProgram.ExtendedUpgradeFits(a, account, u.authority, |u.program|, minimumFeature, othersPass);
    var stored := UpgradeBits(account, u.authority, length, othersPass);
    if stored.Ok? {
      assert stored.value == stored.value[..|u.program|] + stored.value[|u.program|..];
    }
  }

  /** The account the final message meets is still a buffer of the authority. */
  lemma {:induction false} StaysABuffer(u: Upload, t: Replies)
    requires WellFormed(u) && PastWrites(u, t).Past? && Plans(u) && Final(u.commitment)
    ensures
      var account := PastWrites(u, t).account;
      && account.Some? && IsBuffer(account.value, u.authority)
      && |account.value| == BUFFER_METADATA + |Compared(u, Fetch(u).value)|
  {
    var fetched := Fetch(u).value;
    StartAccount(u, fetched, t);
    var account := AfterInitial(u, fetched, t).value;
    var plan := Plan(u.program, Compared(u, fetched), u.chunkSize).value;
    var log := if plan == [] then t.late else Run(SendConfig(u, plan), Start(), t.steps).value.log + t.late;
    BufferAfterAll(account, u.authority, log);
  }

  lemma {:induction false} BufferAfterAll(account: seq<byte>, authority: Pubkey, log: seq<Write>)
    requires IsBuffer(account, authority)
    ensures IsBuffer(ExecuteAll(account, authority, log), authority)
    ensures |ExecuteAll(account, authority, log)| == |account|
  {
    ExecuteAllLands(account, authority, log);
    DecodeReadsMetadata(account, LandAll(account[BUFFER_METADATA..], log), authority);
  }
}
