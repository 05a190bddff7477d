/** Growing a program data account: the extension an upgrade asks for by itself, the
    check of the explicit extend command, and the check of the on-chain loader. */
module ExtendProgram {
  import opened Prelude
  import opened LoaderState
  import Loader

  const MINIMUM_EXTEND_PROGRAM_BYTES := 10_240

  datatype ExtendError = Closed | NotUpgradeable | TooBig

  /** The program data account as the client sees it: whether it decodes as program
      data, whether it has an authority, and its length. */
  datatype Account = Account(isProgramData: bool, upgradeable: bool, length: nat)

  /** `extend_program_data_if_needed`: the additional bytes of the extend instruction
      it adds, `None` if it adds none. */
  function AutoExtend(account: Option<Account>, programLen: nat, minimumFeature: bool)
    : Result<Option<u32>, ExtendError>
  {
    match account
    case None => Ok(None)
    case Some(a) =>
      var required := PROGRAMDATA_METADATA + programLen;
      if !a.isProgramData then Err(Closed)
      else if !a.upgradeable then Err(NotUpgradeable)
      else if MAX_PERMITTED_DATA_LENGTH < required then Err(TooBig)
      else
        var missing := SatSub(required, a.length);
        var headroom := SatSub(MAX_PERMITTED_DATA_LENGTH, a.length);
        if missing == 0 then Ok(None)
        else if minimumFeature then Ok(Some(Max(missing, Min(MINIMUM_EXTEND_PROGRAM_BYTES, headroom))))
        else Ok(Some(missing))
  }

  /** The size check of the explicit extend command. */
  predicate CommandAllows(length: nat, additional: u32, minimumFeature: bool) {
    minimumFeature ==>
      MINIMUM_EXTEND_PROGRAM_BYTES <= additional || additional == SatSub(MAX_PERMITTED_DATA_LENGTH, length)
  }

  /** The size checks of the loader's `ExtendProgram`. */
  predicate LoaderAllows(length: nat, additional: u32, minimumFeature: bool) {
    && additional != 0
    && length + additional <= MAX_PERMITTED_DATA_LENGTH
    && (minimumFeature ==>
          MINIMUM_EXTEND_PROGRAM_BYTES <= additional || additional == SatSub(MAX_PERMITTED_DATA_LENGTH, length))
  }

  /** When an upgrade refuses to go on: the account is not program data, has no authority,
      or the program is too big for any account. */
  lemma {:induction false} AutoExtendFails(account: Option<Account>, programLen: nat, minimumFeature: bool)
    ensures AutoExtend(account, programLen, minimumFeature).Err? <==>
              && account.Some?
              && !(&& account.value.isProgramData && account.value.upgradeable
                   && PROGRAMDATA_METADATA + programLen <= MAX_PERMITTED_DATA_LENGTH)
    ensures account.None? ==> AutoExtend(account, programLen, minimumFeature) == Ok(None)
  {
  }

  /** An upgrade's own extension is accepted by the command's check and by the loader,
      makes the account long enough, and is the smallest that does both. */
  lemma AutoExtendIsLeast(a: Account, programLen: nat, minimumFeature: bool)
    requires a.length <= MAX_PERMITTED_DATA_LENGTH
    requires AutoExtend(Some(a), programLen, minimumFeature).Ok?
    ensures
      var required := PROGRAMDATA_METADATA + programLen;
      match AutoExtend(Some(a), programLen, minimumFeature).value
      case None => required <= a.length
      case Some(additional) =>
        && a.length < required <= a.length + additional
        && LoaderAllows(a.length, additional, minimumFeature)
        && CommandAllows(a.length, additional, minimumFeature)
        && forall other: u32 :: LoaderAllows(a.length, other, minimumFeature) && required <= a.length + other ==>
             additional <= other
    ensures forall other: u32 ::
              LoaderAllows(a.length, other, minimumFeature) <==>
                && CommandAllows(a.length, other, minimumFeature)
                && 0 < other && a.length + other <= MAX_PERMITTED_DATA_LENGTH
  {
  }

  /** The length of the program data account once the upgrade's own extension, if
      any, is executed. */
  function ExtendedLength(a: Account, programLen: nat, minimumFeature: bool): nat
    requires AutoExtend(Some(a), programLen, minimumFeature).Ok?
  {
    var extension := AutoExtend(Some(a), programLen, minimumFeature).value;
    a.length + (if extension.None? then 0 else extension.value)
  }

  /** The extension is sized by the program, the loader's upgrade by the whole buffer:
      with any buffer that is long enough to be used, the size checks pass exactly if
      the buffer holds anything and its program bytes fit the extended account. */
  lemma {:induction false} ExtendedUpgradeFits(a: Account, buffer: seq<byte>, authority: Pubkey, programLen: nat,
                                               minimumFeature: bool, othersPass: bool)
    requires AutoExtend(Some(a), programLen, minimumFeature).Ok?
    requires Loader.IsBuffer(buffer, authority) && BUFFER_METADATA + programLen <= |buffer|
    ensures
      var length := ExtendedLength(a, programLen, minimumFeature);
      Loader.UpgradeBits(buffer, authority, length, othersPass).Ok? <==>
        && othersPass && BUFFER_METADATA < |buffer|
        && PROGRAMDATA_METADATA + |buffer| - BUFFER_METADATA <= length
    ensures |buffer| == BUFFER_METADATA + programLen && 0 < programLen ==>
              PROGRAMDATA_METADATA + |buffer| - BUFFER_METADATA <= ExtendedLength(a, programLen, minimumFeature)
  {
  }

  /** Which lengths those are, from what is known before anything is written: a buffer
      of the program's own length always fits; a longer one needs an account that is
      already long enough or, when the minimum extension applies, the slack it adds. */
  lemma {:induction false} LongBufferFits(a: Account, programLen: nat, bufferLen: nat, minimumFeature: bool)
    requires a.length <= MAX_PERMITTED_DATA_LENGTH && programLen <= bufferLen
    requires AutoExtend(Some(a), programLen, minimumFeature).Ok?
    ensures PROGRAMDATA_METADATA + bufferLen <= ExtendedLength(a, programLen, minimumFeature) <==>
              || bufferLen == programLen
              || PROGRAMDATA_METADATA + bufferLen <= a.length
              || (&& minimumFeature && a.length < PROGRAMDATA_METADATA + programLen
                  && PROGRAMDATA_METADATA + bufferLen <=
                       Min(a.length + MINIMUM_EXTEND_PROGRAM_BYTES, MAX_PERMITTED_DATA_LENGTH))
  {
  }

  /** An input that fails: a buffer one byte longer than the program, and an account
      that just holds the program.  Nothing is extended and the upgrade is refused. */
  lemma {:induction false} LongBufferRefused(buffer: seq<byte>, authority: Pubkey, minimumFeature: bool,
                                             othersPass: bool)
    requires Loader.IsBuffer(buffer, authority) && |buffer| == BUFFER_METADATA + 101
    ensures
      var a := Account(true, true, PROGRAMDATA_METADATA + 100);
      && AutoExtend(Some(a), 100, minimumFeature) == Ok(None)
      && Loader.UpgradeBits(buffer, authority, a.length, othersPass) == Err(Loader.AccountDataTooSmall)
  {
  }
}
