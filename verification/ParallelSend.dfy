/** The parallel sender: many messages are signed, sent, confirmed and, when
    their blockhash expires, signed and sent again, by three concurrent tasks
    that share two maps.

    A run is a sequence of atomic steps of the main task, the confirmation
    task, the blockhash updater and the chain, in any interleaving.  `Run`
    folds the steps over a state; a step that is not enabled makes the run
    impossible (`None`). */
module ParallelSend {
  import opened Prelude

  /** The level at which the client asks the cluster.  What a supermajority has voted
      for stays; a block that is merely processed may still be abandoned. */
  datatype Commitment = Processed | Confirmed | Finalized

  predicate Final(commitment: Commitment) { !commitment.Processed? }

  /** `stale` are messages that other, earlier sessions have signed and that may
      still land at any time.  `multiThreaded` says whether another task can be
      scheduled between two synchronous operations of the confirmation task. */
  datatype Config<M(==)> = Config(
    messages: seq<M>,
    signingCount: nat,
    multiThreaded: bool,
    commitment: Commitment,
    stale: set<M>)

  /** Signing is deterministic, so a signature is named by what was signed. */
  datatype Signature<M(==)> = Signature(message: M, blockhash: nat)

  datatype Item<M(==)> = Item(index: nat, message: M)

  datatype TransactionData<M(==)> = TransactionData(item: Item<M>, lastValid: nat)

  /** What sending one transaction returned: handed over, worth retrying later,
      judged invalid (recorded as an error), or an error that ends the whole send. */
  datatype Reply = Accepted | TryLater | Rejected | Fatal

  datatype Outcome = Returned(errors: set<nat>) | SendFailed | MaxRetries

  datatype Main<M(==)> =
    | Setup
    | LoopHead(left: nat, initial: bool)
    | Collecting(left: nat, snapshot: map<Signature<M>, TransactionData<M>>)
    | Clearing(left: nat, batch: set<Item<M>>)
    | Sending(left: nat, todo: set<Item<M>>, inFlight: set<Item<M>>, failed: bool)
    | Waiting(left: nat, maxValid: nat)
    | RoundOver(left: nat)
    | Finishing
    | Done(outcome: Outcome)

  datatype Confirmer<M(==)> =
    | Idle
    | Checking(seen: nat, toVerify: set<Signature<M>>)
    | Recording(seen: nat, toVerify: set<Signature<M>>, index: nat)

  datatype State<M(==)> = State(
    main: Main<M>,
    confirmer: Confirmer<M>,
    lastSeen: nat,                                        // the confirmation task's last_block_height
    unconfirmed: map<Signature<M>, TransactionData<M>>,
    errors: set<nat>,                                     // keys of the error map
    rejected: set<nat>,                                   // indices whose transaction was judged invalid
    height: nat,                                          // current_block_height as last observed
    published: map<nat, nat>,                             // blockhash -> last valid block height
    // the chain as it stands in the end
    chainHeight: nat,
    signed: set<Signature<M>>,
    executed: map<Signature<M>, bool>,                    // true: the transaction succeeded
    forked: map<Signature<M>, bool>,                      // the same, in blocks that will be abandoned
    log: seq<M>)                                          // messages executed with success, in order

  datatype MainStep<M(==)> =
    | SetupFails
    | SetupDone(hash: nat, lastValid: nat, observed: nat)
    | EnterRound
    | Collect(batch: set<Item<M>>)
    | Clear
    | Sign(item: Item<M>, hash: nat)
    | SendDone(item: Item<M>, reply: Reply)
    | Join(maxValid: nat)
    | KeepWaiting(maxValid: nat)
    | StopWaiting
    | EndRound
    | Finish

  datatype ConfirmStep<M(==)> =
    | BeginCheck
    | Confirm(signature: Signature<M>)
    | RecordError
    | EndCheck

  /** The blockhash and block height updater, and the chain.  An execution that is
      abandoned later is shown until then, and never enters the log. */
  datatype NetworkStep<M(==)> =
    | Publish(hash: nat, lastValid: nat)
    | Observe(observed: nat)
    | Advance
    | Execute(signature: Signature<M>, success: bool)
    | Fork(signature: Signature<M>, success: bool)
    | Abandon(signature: Signature<M>)
    | LandStale(message: M)

  datatype Step<M(==)> =
    | ByMain(main: MainStep<M>)
    | ByConfirmer(confirm: ConfirmStep<M>)
    | ByNetwork(network: NetworkStep<M>)

  function Start<M(==)>(): State<M> {
    State(Setup, Idle, 0, map[], {}, {}, 0, map[], 0, {}, map[], map[], [])
  }

  function Items<M(==)>(cfg: Config<M>): set<Item<M>> {
    set i | 0 <= i < |cfg.messages| :: Item(i, cfg.messages[i])
  }

  ghost predicate Bounds<M(!new)>(maxValid: nat, unconfirmed: map<Signature<M>, TransactionData<M>>) {
    forall g :: g in unconfirmed ==> unconfirmed[g].lastValid <= maxValid
  }

  function ToVerify<M(==)>(s: State<M>): set<Signature<M>> {
    set g | g in s.unconfirmed
            && (s.height <= s.unconfirmed[g].lastValid || s.lastSeen <= s.unconfirmed[g].lastValid)
  }

  /** A block height seen at a final level is one that the chain has reached. */
  predicate MayObserve<M(==)>(cfg: Config<M>, s: State<M>, observed: nat) {
    Final(cfg.commitment) ==> observed <= s.chainHeight
  }

  ghost predicate MainEnabled<M(!new)>(cfg: Config<M>, s: State<M>, step: MainStep<M>) {
    match step
    case SetupFails => s.main.Setup?
    case SetupDone(_, _, observed) => s.main.Setup? && MayObserve(cfg, s, observed)
    case EnterRound => s.main.LoopHead?
    case Collect(batch) =>
      // The concurrent map is not iterated atomically: an entry the confirmation
      // task removes meanwhile may or may not be collected.
      && s.main.Collecting?
      && (forall g :: g in s.unconfirmed ==> s.unconfirmed[g].item in batch)
      && (forall it :: it in batch ==> exists g :: g in s.main.snapshot && s.main.snapshot[g].item == it)
    case Clear => s.main.Clearing?
    case Sign(item, hash) => s.main.Sending? && item in s.main.todo && hash in s.published
    case SendDone(item, _) => s.main.Sending? && item in s.main.inFlight
    case Join(maxValid) =>
      s.main.Sending? && s.main.todo == {} && s.main.inFlight == {} && Bounds(maxValid, s.unconfirmed)
    case KeepWaiting(maxValid) =>
      s.main.Waiting? && s.height <= s.main.maxValid && Bounds(maxValid, s.unconfirmed)
    case StopWaiting => s.main.Waiting? && (s.unconfirmed == map[] || s.main.maxValid < s.height)
    case EndRound => s.main.RoundOver?
    case Finish => s.main.Finishing?
  }

  ghost function MainApply<M(!new)>(cfg: Config<M>, s: State<M>, step: MainStep<M>): State<M>
    requires MainEnabled(cfg, s, step)
  {
    match step
    case SetupFails => s.(main := Done(SendFailed))
    case SetupDone(hash, lastValid, observed) =>
      s.(main := LoopHead(cfg.signingCount, true), height := observed, lastSeen := observed,
         published := s.published[hash := if hash in s.published then s.published[hash] else lastValid])
    case EnterRound =>
      s.(main :=
        if s.main.left == 0 then Finishing
        else if !s.main.initial then Collecting(s.main.left - 1, s.unconfirmed)
        else if cfg.messages == [] then Finishing
        else Clearing(s.main.left - 1, Items(cfg)))
    case Collect(batch) =>
      s.(main := if batch == {} then Finishing else Clearing(s.main.left, batch))
    case Clear => s.(unconfirmed := map[], main := Sending(s.main.left, s.main.batch, {}, false))
    case Sign(item, hash) =>
      var g := Signature(item.message, hash);
      s.(unconfirmed := s.unconfirmed[g := TransactionData(item, s.published[hash])],
         signed := s.signed + {g},
         main := s.main.(todo := s.main.todo - {item}, inFlight := s.main.inFlight + {item}))
    case SendDone(item, reply) =>
      s.(errors := if reply.Rejected? then s.errors + {item.index} else s.errors,
         rejected := if reply.Rejected? then s.rejected + {item.index} else s.rejected,
         main := s.main.(inFlight := s.main.inFlight - {item}, failed := s.main.failed || reply.Fatal?))
    case Join(maxValid) =>
      s.(main := if s.main.failed then Done(SendFailed)
                 else if s.unconfirmed == map[] then RoundOver(s.main.left)
                 else Waiting(s.main.left, maxValid))
    case KeepWaiting(maxValid) => s.(main := Waiting(s.main.left, maxValid))
    case StopWaiting => s.(main := RoundOver(s.main.left))
    case EndRound => s.(main := if s.unconfirmed == map[] then Finishing else LoopHead(s.main.left, false))
    case Finish => s.(main := Done(if s.unconfirmed == map[] then Returned(s.errors) else MaxRetries))
  }

  /** The cluster shows a status for the signature that satisfies the commitment level:
      only at the lowest does the status in an abandoned block. */
  predicate Satisfies<M(==)>(cfg: Config<M>, s: State<M>, g: Signature<M>) {
    g in s.executed || (!Final(cfg.commitment) && g in s.forked)
  }

  predicate StatusOf<M(==)>(s: State<M>, g: Signature<M>)
    requires g in s.executed || g in s.forked
  {
    if g in s.executed then s.executed[g] else s.forked[g]
  }

  ghost predicate ConfirmEnabled<M(!new)>(cfg: Config<M>, s: State<M>, step: ConfirmStep<M>) {
    match step
    case BeginCheck => !s.main.Setup? && s.confirmer.Idle? && s.unconfirmed != map[]
    case Confirm(g) =>
      s.confirmer.Checking? && g in s.confirmer.toVerify && g in s.unconfirmed && Satisfies(cfg, s, g)
    case RecordError => s.confirmer.Recording?
    case EndCheck => s.confirmer.Checking?
  }

  ghost function ConfirmApply<M(!new)>(cfg: Config<M>, s: State<M>, step: ConfirmStep<M>): State<M>
    requires ConfirmEnabled(cfg, s, step)
  {
    match step
    case BeginCheck => s.(confirmer := Checking(s.height, ToVerify(s)))
    case Confirm(g) =>
      var index := s.unconfirmed[g].item.index;
      var removed := s.(unconfirmed := s.unconfirmed - {g});
      if StatusOf(s, g) then removed
      else if cfg.multiThreaded then
        removed.(confirmer := Recording(s.confirmer.seen, s.confirmer.toVerify, index))
      else removed.(errors := s.errors + {index})
    case RecordError =>
      s.(errors := s.errors + {s.confirmer.index}, confirmer := Checking(s.confirmer.seen, s.confirmer.toVerify))
    case EndCheck => s.(confirmer := Idle, lastSeen := s.confirmer.seen)
  }

  ghost predicate NetworkEnabled<M(!new)>(cfg: Config<M>, s: State<M>, step: NetworkStep<M>) {
    match step
    case Publish(hash, lastValid) => hash in s.published ==> s.published[hash] == lastValid
    case Observe(observed) => MayObserve(cfg, s, observed)
    case Advance => true
    case Execute(g, _) =>
      g in s.signed && g !in s.executed && g.blockhash in s.published && s.chainHeight <= s.published[g.blockhash]
    case Fork(g, _) => g in s.signed && g !in s.executed
    case Abandon(g) => g in s.forked
    case LandStale(m) => m in cfg.stale
  }

  ghost function NetworkApply<M(!new)>(cfg: Config<M>, s: State<M>, step: NetworkStep<M>): State<M>
    requires NetworkEnabled(cfg, s, step)
  {
    match step
    case Publish(hash, lastValid) => s.(published := s.published[hash := lastValid])
    case Observe(observed) => s.(height := observed)
    case Advance => s.(chainHeight := s.chainHeight + 1)
    case Execute(g, success) =>
      s.(executed := s.executed[g := success], log := if success then s.log + [g.message] else s.log)
    case Fork(g, success) => s.(forked := s.forked[g := success])
    case Abandon(g) => s.(forked := s.forked - {g})
    case LandStale(m) => s.(log := s.log + [m])
  }

  ghost predicate Enabled<M(!new)>(cfg: Config<M>, s: State<M>, step: Step<M>) {
    match step
    case ByMain(main) => MainEnabled(cfg, s, main)
    case ByConfirmer(confirm) => ConfirmEnabled(cfg, s, confirm)
    case ByNetwork(network) => NetworkEnabled(cfg, s, network)
  }

  ghost function Apply<M(!new)>(cfg: Config<M>, s: State<M>, step: Step<M>): State<M>
    requires Enabled(cfg, s, step)
  {
    match step
    case ByMain(main) => MainApply(cfg, s, main)
    case ByConfirmer(confirm) => ConfirmApply(cfg, s, confirm)
    case ByNetwork(network) => NetworkApply(cfg, s, network)
  }

  ghost function Run<M(!new)>(cfg: Config<M>, s: State<M>, steps: seq<Step<M>>): Option<State<M>>
    decreases |steps|
  {
    if steps == [] then Some(s)
    else if Enabled(cfg, s, steps[0]) then Run(cfg, Apply(cfg, s, steps[0]), steps[1..])
    else None
  }

  /** The sender reported that every message was confirmed without an error. */
  ghost predicate ReportsSuccess<M(!new)>(s: State<M>) {
    s.main.Done? && s.main.outcome.Returned? && s.main.outcome.errors == {}
  }

  ghost predicate AllLanded<M(!new)>(cfg: Config<M>, s: State<M>) {
    forall m :: m in cfg.messages ==> m in s.log
  }

  /** What every caller relies on: in every run, a reported success means that
      every message was executed with success. */
  ghost predicate Trustworthy<M(!new)>(cfg: Config<M>) {
    forall steps: seq<Step<M>> ::
      var end := Run(cfg, Start(), steps);
      end.Some? && ReportsSuccess(end.value) ==> AllLanded(cfg, end.value)
  }

  // ----------------------------------------------------------------------
  // Invariants

  ghost predicate IsItem<M(!new)>(cfg: Config<M>, it: Item<M>) {
    it.index < |cfg.messages| && cfg.messages[it.index] == it.message
  }

  ghost predicate AreItems<M(!new)>(cfg: Config<M>, items: set<Item<M>>) {
    forall it :: it in items ==> IsItem(cfg, it)
  }

  ghost predicate AreEntries<M(!new)>(cfg: Config<M>, entries: map<Signature<M>, TransactionData<M>>) {
    forall g :: g in entries ==> IsItem(cfg, entries[g].item) && entries[g].item.message == g.message
  }

  /** Everything that is held speaks about the given messages. */
  ghost predicate HoldsItems<M(!new)>(cfg: Config<M>, s: State<M>) {
    && AreEntries(cfg, s.unconfirmed)
    && (forall i :: i in s.errors ==> i < |cfg.messages|)
    && (s.confirmer.Recording? ==> cfg.multiThreaded && s.confirmer.index < |cfg.messages|)
    && match s.main
       case Collecting(_, snapshot) => AreEntries(cfg, snapshot)
       case Clearing(_, batch) => AreItems(cfg, batch)
       case Sending(_, todo, inFlight, _) => AreItems(cfg, todo) && AreItems(cfg, inFlight)
       case Done(Returned(errors)) => forall i :: i in errors ==> i < |cfg.messages|
       case _ => true
  }

  /** The log holds what the executed transactions and the stale messages say. */
  ghost predicate LogAgrees<M(!new)>(cfg: Config<M>, s: State<M>) {
    && (forall g :: g in s.signed ==> g.message in cfg.messages)
    && (forall g :: g in s.executed ==> g in s.signed && (s.executed[g] ==> g.message in s.log))
    && (forall m :: m in s.log ==> m in cfg.messages || m in cfg.stale)
  }

  ghost predicate Waits<M(!new)>(items: set<Item<M>>, m: M) {
    exists it :: it in items && it.message == m
  }

  ghost predicate Tracked<M(!new)>(unconfirmed: map<Signature<M>, TransactionData<M>>, m: M) {
    exists g :: g in unconfirmed && g.message == m
  }

  /** Some transaction of the message was executed and failed. */
  ghost predicate FailedOnChain<M(!new)>(s: State<M>, m: M) {
    exists g :: g in s.executed && g.message == m && !s.executed[g]
  }

  ghost predicate NothingFailed<M(!new)>(s: State<M>) {
    forall g :: g in s.executed ==> s.executed[g]
  }

  /** The message whose failure the confirmation task is about to record. */
  ghost predicate AboutToFail<M(!new)>(cfg: Config<M>, s: State<M>, m: M) {
    && s.confirmer.Recording? && s.confirmer.index < |cfg.messages| && cfg.messages[s.confirmer.index] == m
    && FailedOnChain(s, m)
  }

  /** An error stands against the message. */
  ghost predicate Reported<M(!new)>(cfg: Config<M>, errors: set<nat>, m: M) {
    exists i :: i in errors && i < |cfg.messages| && cfg.messages[i] == m
  }

  /** A message is not lost: it landed, or it is tracked, or it is still to be
      signed, or its error is recorded or being recorded. */
  ghost predicate Covered<M(!new)>(cfg: Config<M>, s: State<M>, m: M) {
    || m in s.log
    || Reported(cfg, s.errors, m)
    || AboutToFail(cfg, s, m)
    || Tracked(s.unconfirmed, m)
    || (s.main.Clearing? && Waits(s.main.batch, m))
    || (s.main.Sending? && Waits(s.main.todo, m))
  }

  ghost predicate Missing<M(!new)>(cfg: Config<M>, s: State<M>, errors: set<nat>, m: M) {
    m in cfg.messages && m !in s.log && !Reported(cfg, errors, m)
  }

  /** At most one message neither landed nor is reported; it failed, and went unreported
      because another task could run before its failure was recorded. */
  ghost predicate OneMissing<M(!new)>(cfg: Config<M>, s: State<M>, errors: set<nat>) {
    && (forall m :: Missing(cfg, s, errors, m) ==> cfg.multiThreaded && FailedOnChain(s, m))
    && (forall m, n :: Missing(cfg, s, errors, m) && Missing(cfg, s, errors, n) ==> m == n)
  }

  ghost predicate NoneLost<M(!new)>(cfg: Config<M>, s: State<M>) {
    match s.main
    case Setup => true
    case LoopHead(left, true) => left == cfg.signingCount
    case Done(SendFailed) => true
    case Done(MaxRetries) => true
    case Done(Returned(errors)) => OneMissing(cfg, s, errors)
    case _ => forall m :: m in cfg.messages ==> Covered(cfg, s, m)
  }

  lemma {:induction false} HoldsItemsMain<M(!new)>(cfg: Config<M>, s: State<M>, step: MainStep<M>)
    requires HoldsItems(cfg, s) && MainEnabled(cfg, s, step)
    ensures HoldsItems(cfg, MainApply(cfg, s, step))
  {
  }

  lemma {:induction false} HoldsItemsConfirm<M(!new)>(cfg: Config<M>, s: State<M>, step: ConfirmStep<M>)
    requires HoldsItems(cfg, s) && ConfirmEnabled(cfg, s, step)
    ensures HoldsItems(cfg, ConfirmApply(cfg, s, step))
  {
  }

  lemma {:induction false} HoldsItemsNetwork<M(!new)>(cfg: Config<M>, s: State<M>, step: NetworkStep<M>)
    requires HoldsItems(cfg, s) && NetworkEnabled(cfg, s, step)
    ensures HoldsItems(cfg, NetworkApply(cfg, s, step))
  {
  }

  lemma {:induction false} HoldsItemsStep<M(!new)>(cfg: Config<M>, s: State<M>, step: Step<M>)
    requires HoldsItems(cfg, s) && Enabled(cfg, s, step)
    ensures HoldsItems(cfg, Apply(cfg, s, step))
  {
    match step {
      case ByMain(main) => HoldsItemsMain(cfg, s, main);
      case ByConfirmer(confirm) => HoldsItemsConfirm(cfg, s, confirm);
      case ByNetwork(network) => HoldsItemsNetwork(cfg, s, network);
    }
  }

  lemma {:induction false} LogAgreesMain<M(!new)>(cfg: Config<M>, s: State<M>, step: MainStep<M>)
    requires HoldsItems(cfg, s) && LogAgrees(cfg, s) && MainEnabled(cfg, s, step)
    ensures LogAgrees(cfg, MainApply(cfg, s, step))
  {
  }

  lemma {:induction false} LogAgreesConfirm<M(!new)>(cfg: Config<M>, s: State<M>, step: ConfirmStep<M>)
    requires HoldsItems(cfg, s) && LogAgrees(cfg, s) && ConfirmEnabled(cfg, s, step)
    ensures LogAgrees(cfg, ConfirmApply(cfg, s, step))
  {
  }

  lemma {:induction false} LogAgreesNetwork<M(!new)>(cfg: Config<M>, s: State<M>, step: NetworkStep<M>)
    requires HoldsItems(cfg, s) && LogAgrees(cfg, s) && NetworkEnabled(cfg, s, step)
    ensures LogAgrees(cfg, NetworkApply(cfg, s, step))
  {
  }

  lemma {:induction false} LogAgreesStep<M(!new)>(cfg: Config<M>, s: State<M>, step: Step<M>)
    requires HoldsItems(cfg, s) && LogAgrees(cfg, s) && Enabled(cfg, s, step)
    ensures LogAgrees(cfg, Apply(cfg, s, step))
  {
    match step {
      case ByMain(main) => LogAgreesMain(cfg, s, main);
      case ByConfirmer(confirm) => LogAgreesConfirm(cfg, s, confirm);
      case ByNetwork(network) => LogAgreesNetwork(cfg, s, network);
    }
  }

  /** Nothing is tracked before the first round, and the batch about to replace
      the tracked transactions holds all of them. */
  ghost predicate BatchComplete<M(!new)>(s: State<M>) {
    && (s.main.Setup? || (s.main.LoopHead? && s.main.initial) ==> s.unconfirmed == map[])
    && (s.main.Clearing? ==> forall g :: g in s.unconfirmed ==> s.unconfirmed[g].item in s.main.batch)
  }

  lemma {:induction false} BatchCompleteMain<M(!new)>(cfg: Config<M>, s: State<M>, step: MainStep<M>)
    requires BatchComplete(s) && MainEnabled(cfg, s, step)
    ensures BatchComplete(MainApply(cfg, s, step))
  {
  }

  lemma {:induction false} BatchCompleteConfirm<M(!new)>(cfg: Config<M>, s: State<M>, step: ConfirmStep<M>)
    requires BatchComplete(s) && ConfirmEnabled(cfg, s, step)
    ensures BatchComplete(ConfirmApply(cfg, s, step))
  {
  }

  lemma {:induction false} BatchCompleteNetwork<M(!new)>(cfg: Config<M>, s: State<M>, step: NetworkStep<M>)
    requires BatchComplete(s) && NetworkEnabled(cfg, s, step)
    ensures BatchComplete(NetworkApply(cfg, s, step))
  {
  }

  lemma {:induction false} BatchCompleteStep<M(!new)>(cfg: Config<M>, s: State<M>, step: Step<M>)
    requires BatchComplete(s) && Enabled(cfg, s, step)
    ensures BatchComplete(Apply(cfg, s, step))
  {
    match step {
      case ByMain(main) => BatchCompleteMain(cfg, s, main);
      case ByConfirmer(confirm) => BatchCompleteConfirm(cfg, s, confirm);
      case ByNetwork(network) => BatchCompleteNetwork(cfg, s, network);
    }
  }

  ghost predicate Inv<M(!new)>(cfg: Config<M>, s: State<M>) {
    HoldsItems(cfg, s) && LogAgrees(cfg, s) && BatchComplete(s)
  }

  lemma {:induction false} InvStep<M(!new)>(cfg: Config<M>, s: State<M>, step: Step<M>)
    requires Inv(cfg, s) && Enabled(cfg, s, step)
    ensures Inv(cfg, Apply(cfg, s, step))
  {
    HoldsItemsStep(cfg, s, step);
    LogAgreesStep(cfg, s, step);
    BatchCompleteStep(cfg, s, step);
  }

  lemma {:induction false} CoveredMain<M(!new)>(cfg: Config<M>, s: State<M>, step: MainStep<M>, m: M)
    requires Inv(cfg, s) && MainEnabled(cfg, s, step) && Covered(cfg, s, m)
    ensures Covered(cfg, MainApply(cfg, s, step), m)
  {
    var s' := MainApply(cfg, s, step);
    if Reported(cfg, s.errors, m) {
      ReportsStay(cfg, s.errors, s'.errors, m);
    } else if m in s.log || AboutToFail(cfg, s, m) {
    } else if Tracked(s.unconfirmed, m) {
      var g :| g in s.unconfirmed && g.message == m;
      if step.Clear? {
        assert s.unconfirmed[g].item in s'.main.todo;
      } else {
        assert g in s'.unconfirmed;
      }
    } else if s.main.Sending? {
      var it :| it in s.main.todo && it.message == m;
      if step.Sign? && step.item == it {
        assert Signature(m, step.hash) in s'.unconfirmed;
      } else if s'.main.Sending? {
        assert it in s'.main.todo;
      }
    }
  }

  lemma {:induction false} CoveredConfirm<M(!new)>(cfg: Config<M>, s: State<M>, step: ConfirmStep<M>, m: M)
    requires Final(cfg.commitment)
    requires Inv(cfg, s) && ConfirmEnabled(cfg, s, step) && Covered(cfg, s, m)
    ensures Covered(cfg, ConfirmApply(cfg, s, step), m)
  {
    var s' := ConfirmApply(cfg, s, step);
    if Reported(cfg, s.errors, m) {
      ReportsStay(cfg, s.errors, s'.errors, m);
    } else if AboutToFail(cfg, s, m) {
      if step.RecordError? {
        assert s.confirmer.index in s'.errors;
      }
    } else if Tracked(s.unconfirmed, m) {
      var g :| g in s.unconfirmed && g.message == m;
      if step != Confirm(g) {
        assert g in s'.unconfirmed;
      } else {
        ConfirmAccounts(cfg, s, g);
      }
    }
  }

  /** A transaction that is no longer tracked landed, or its own index is recorded or
      about to be. */
  lemma {:induction false} ConfirmAccounts<M(!new)>(cfg: Config<M>, s: State<M>, g: Signature<M>)
    requires Final(cfg.commitment)
    requires Inv(cfg, s) && ConfirmEnabled(cfg, s, Confirm(g))
    ensures Covered(cfg, ConfirmApply(cfg, s, Confirm(g)), g.message)
  {
    var s' := ConfirmApply(cfg, s, Confirm(g));
    var index := s.unconfirmed[g].item.index;
    assert cfg.messages[index] == g.message;
    if !s.executed[g] {
      assert g in s'.executed && FailedOnChain(s', g.message);
      assert index in s'.errors || AboutToFail(cfg, s', g.message);
    }
  }

  lemma {:induction false} ReportsStay<M(!new)>(cfg: Config<M>, errors: set<nat>, more: set<nat>, m: M)
    requires Reported(cfg, errors, m) && errors <= more
    ensures Reported(cfg, more, m)
  {
    var i :| i in errors && i < |cfg.messages| && cfg.messages[i] == m;
    assert i in more;
  }

  lemma {:induction false} CoveredNetwork<M(!new)>(cfg: Config<M>, s: State<M>, step: NetworkStep<M>, m: M)
    requires NetworkEnabled(cfg, s, step) && Covered(cfg, s, m)
    ensures Covered(cfg, NetworkApply(cfg, s, step), m)
  {
    if AboutToFail(cfg, s, m) {
      FailureStays(cfg, s, step, m);
    }
  }

  lemma {:induction false} FailureStays<M(!new)>(cfg: Config<M>, s: State<M>, step: NetworkStep<M>, m: M)
    requires NetworkEnabled(cfg, s, step) && FailedOnChain(s, m)
    ensures FailedOnChain(NetworkApply(cfg, s, step), m)
  {
    var g :| g in s.executed && g.message == m && !s.executed[g];
    assert g in NetworkApply(cfg, s, step).executed;
  }

  /** Returning: nothing is tracked any more, so a message that neither landed nor is
      reported is the one whose failure was about to be recorded. */
  lemma {:induction false} FinishSettles<M(!new)>(cfg: Config<M>, s: State<M>)
    requires HoldsItems(cfg, s) && s.main.Finishing? && s.unconfirmed == map[]
    requires forall m :: m in cfg.messages ==> Covered(cfg, s, m)
    ensures OneMissing(cfg, MainApply(cfg, s, Finish), s.errors)
  {
    forall m | Missing(cfg, s, s.errors, m) ensures AboutToFail(cfg, s, m) {
      assert Covered(cfg, s, m);
    }
    forall m | FailedOnChain(s, m) ensures FailedOnChain(MainApply(cfg, s, Finish), m) {
      var g :| g in s.executed && g.message == m && !s.executed[g];
      assert g in MainApply(cfg, s, Finish).executed;
    }
    forall m | Missing(cfg, MainApply(cfg, s, Finish), s.errors, m) ensures Missing(cfg, s, s.errors, m) {
    }
  }

  /** What stays missing later was missing before. */
  lemma {:induction false} OneMissingStays<M(!new)>(cfg: Config<M>, s: State<M>, s': State<M>, errors: set<nat>)
    requires OneMissing(cfg, s, errors)
    requires forall m :: m in s.log ==> m in s'.log
    requires forall m :: FailedOnChain(s, m) ==> FailedOnChain(s', m)
    ensures OneMissing(cfg, s', errors)
  {
    forall m | Missing(cfg, s', errors, m) ensures Missing(cfg, s, errors, m) {
    }
  }

  lemma {:induction false} NoneLostMain<M(!new)>(cfg: Config<M>, s: State<M>, step: MainStep<M>)
    requires Inv(cfg, s) && NoneLost(cfg, s) && MainEnabled(cfg, s, step)
    requires cfg.messages == [] || 1 <= cfg.signingCount
    ensures NoneLost(cfg, MainApply(cfg, s, step))
  {
    var s' := MainApply(cfg, s, step);
    if step.Finish? {
      if s.unconfirmed == map[] {
        FinishSettles(cfg, s);
      }
    } else if step.EnterRound? && s.main.initial {
      forall m | m in cfg.messages ensures Covered(cfg, s', m) {
        var i :| 0 <= i < |cfg.messages| && cfg.messages[i] == m;
        assert Item(i, m) in s'.main.batch;
      }
    } else {
      forall m | m in cfg.messages && Covered(cfg, s, m) ensures Covered(cfg, s', m) {
        CoveredMain(cfg, s, step, m);
      }
    }
  }

  lemma {:induction false} NoneLostConfirm<M(!new)>(cfg: Config<M>, s: State<M>, step: ConfirmStep<M>)
    requires Final(cfg.commitment)
    requires Inv(cfg, s) && NoneLost(cfg, s) && ConfirmEnabled(cfg, s, step)
    ensures NoneLost(cfg, ConfirmApply(cfg, s, step))
  {
    var s' := ConfirmApply(cfg, s, step);
    assert s'.executed == s.executed && s'.log == s.log && s'.main == s.main;
    if s.main.Done? {
      forall m | FailedOnChain(s, m) ensures FailedOnChain(s', m) {
        var g :| g in s.executed && g.message == m && !s.executed[g];
        assert g in s'.executed;
      }
      if s.main.outcome.Returned? {
        OneMissingStays(cfg, s, s', s.main.outcome.errors);
      }
    } else {
      forall m | m in cfg.messages && Covered(cfg, s, m) ensures Covered(cfg, s', m) {
        CoveredConfirm(cfg, s, step, m);
      }
    }
  }

  lemma {:induction false} NoneLostNetwork<M(!new)>(cfg: Config<M>, s: State<M>, step: NetworkStep<M>)
    requires NoneLost(cfg, s) && NetworkEnabled(cfg, s, step)
    ensures NoneLost(cfg, NetworkApply(cfg, s, step))
  {
    var s' := NetworkApply(cfg, s, step);
    if s.main.Done? {
      forall m | FailedOnChain(s, m) ensures FailedOnChain(s', m) {
        FailureStays(cfg, s, step, m);
      }
      if s.main.outcome.Returned? {
        OneMissingStays(cfg, s, s', s.main.outcome.errors);
      }
    } else {
      forall m | m in cfg.messages && Covered(cfg, s, m) ensures Covered(cfg, s', m) {
        CoveredNetwork(cfg, s, step, m);
      }
    }
  }

  lemma {:induction false} NoneLostStep<M(!new)>(cfg: Config<M>, s: State<M>, step: Step<M>)
    requires Final(cfg.commitment)
    requires Inv(cfg, s) && NoneLost(cfg, s) && Enabled(cfg, s, step)
    requires cfg.messages == [] || 1 <= cfg.signingCount
    ensures NoneLost(cfg, Apply(cfg, s, step))
  {
    match step {
      case ByMain(main) => NoneLostMain(cfg, s, main);
      case ByConfirmer(confirm) => NoneLostConfirm(cfg, s, confirm);
      case ByNetwork(network) => NoneLostNetwork(cfg, s, network);
    }
  }

  lemma {:induction false} InvRun<M(!new)>(cfg: Config<M>, s: State<M>, steps: seq<Step<M>>)
    requires Inv(cfg, s) && Run(cfg, s, steps).Some?
    ensures Inv(cfg, Run(cfg, s, steps).value)
    decreases |steps|
  {
    if steps != [] {
      InvStep(cfg, s, steps[0]);
      InvRun(cfg, Apply(cfg, s, steps[0]), steps[1..]);
    }
  }

  lemma {:induction false} NoneLostRun<M(!new)>(cfg: Config<M>, s: State<M>, steps: seq<Step<M>>)
    requires Final(cfg.commitment)
    requires Inv(cfg, s) && NoneLost(cfg, s) && Run(cfg, s, steps).Some?
    requires cfg.messages == [] || 1 <= cfg.signingCount
    ensures NoneLost(cfg, Run(cfg, s, steps).value)
    decreases |steps|
  {
    if steps != [] {
      InvStep(cfg, s, steps[0]);
      NoneLostStep(cfg, s, steps[0]);
      NoneLostRun(cfg, Apply(cfg, s, steps[0]), steps[1..]);
    }
  }

  /** Only the given messages and stale ones ever land, and the indices of the
      reported errors are in range, in every run. */
  lemma {:induction false} OnlyGivenMessagesLand<M(!new)>(cfg: Config<M>, steps: seq<Step<M>>)
    requires Run(cfg, Start(), steps).Some?
    ensures
      var end := Run(cfg, Start(), steps).value;
      && (forall m :: m in end.log ==> m in cfg.messages || m in cfg.stale)
      && (end.main.Done? && end.main.outcome.Returned? ==>
            forall i :: i in end.main.outcome.errors ==> i < |cfg.messages|)
  {
    InvRun(cfg, Start(), steps);
  }

  /** What a reported success means, on any runtime, at a final level: at most one message
      is missing, and a transaction of it failed on chain.  So nothing is missing where
      the confirmation task is not interrupted or no transaction failed. */
  lemma {:induction false} SuccessIsTrue<M(!new)>(cfg: Config<M>, steps: seq<Step<M>>)
    requires cfg.messages == [] || (1 <= cfg.signingCount && Final(cfg.commitment))
    requires Run(cfg, Start(), steps).Some? && ReportsSuccess(Run(cfg, Start(), steps).value)
    ensures
      var end := Run(cfg, Start(), steps).value;
      && (forall m :: m in cfg.messages && m !in end.log ==> cfg.multiThreaded && FailedOnChain(end, m))
      && (forall m, n :: m in cfg.messages && n in cfg.messages && m !in end.log && n !in end.log ==> m == n)
      && (!cfg.multiThreaded || NothingFailed(end) ==> AllLanded(cfg, end))
  {
    if cfg.messages != [] {
      NoneLostRun(cfg, Start(), steps);
      var end := Run(cfg, Start(), steps).value;
      assert OneMissing(cfg, end, {});
      assert forall m :: m in cfg.messages && m !in end.log ==> Missing(cfg, end, {}, m);
    }
  }

  // ----------------------------------------------------------------------
  // The reported errors are those of the messages that failed

  /** At a final level: every recorded index is that of a message that was judged invalid
      or failed on chain, and every message judged invalid is recorded. */
  ghost predicate ErrorsReal<M(!new)>(cfg: Config<M>, s: State<M>, errors: set<nat>) {
    && (forall i :: i in errors ==>
          i < |cfg.messages| && (i in s.rejected || FailedOnChain(s, cfg.messages[i])))
    && s.rejected <= errors
  }

  ghost predicate Records<M(!new)>(cfg: Config<M>, s: State<M>) {
    && ErrorsReal(cfg, s, s.errors)
    && (s.confirmer.Recording? ==>
          s.confirmer.index < |cfg.messages| && FailedOnChain(s, cfg.messages[s.confirmer.index]))
    && (s.main.Done? && s.main.outcome.Returned? ==> ErrorsReal(cfg, s, s.main.outcome.errors))
  }

  /** Failures stay failures over every step. */
  lemma {:induction false} FailureStaysStep<M(!new)>(cfg: Config<M>, s: State<M>, step: Step<M>, m: M)
    requires Enabled(cfg, s, step) && FailedOnChain(s, m)
    ensures FailedOnChain(Apply(cfg, s, step), m)
  {
    if step.ByNetwork? {
      FailureStays(cfg, s, step.network, m);
    } else {
      var g :| g in s.executed && g.message == m && !s.executed[g];
      assert Apply(cfg, s, step).executed == s.executed;
      assert g in Apply(cfg, s, step).executed;
    }
  }

  lemma {:induction false} RecordsMain<M(!new)>(cfg: Config<M>, s: State<M>, step: MainStep<M>)
    requires Inv(cfg, s) && Records(cfg, s) && MainEnabled(cfg, s, step)
    ensures Records(cfg, MainApply(cfg, s, step))
  {
    forall m | FailedOnChain(s, m) ensures FailedOnChain(MainApply(cfg, s, step), m) {
      FailureStaysStep(cfg, s, ByMain(step), m);
    }
  }

  lemma {:induction false} RecordsConfirm<M(!new)>(cfg: Config<M>, s: State<M>, step: ConfirmStep<M>)
    requires Final(cfg.commitment)
    requires Inv(cfg, s) && Records(cfg, s) && ConfirmEnabled(cfg, s, step)
    ensures Records(cfg, ConfirmApply(cfg, s, step))
  {
    var s' := ConfirmApply(cfg, s, step);
    forall m | FailedOnChain(s, m) ensures FailedOnChain(s', m) {
      FailureStaysStep(cfg, s, ByConfirmer(step), m);
    }
    if step.Confirm? {
      var g := step.signature;
      assert cfg.messages[s.unconfirmed[g].item.index] == g.message;
      if !s.executed[g] {
        assert FailedOnChain(s, g.message);
      }
    }
  }

  lemma {:induction false} RecordsStep<M(!new)>(cfg: Config<M>, s: State<M>, step: Step<M>)
    requires Final(cfg.commitment)
    requires Inv(cfg, s) && Records(cfg, s) && Enabled(cfg, s, step)
    ensures Records(cfg, Apply(cfg, s, step))
  {
    match step {
      case ByMain(main) => RecordsMain(cfg, s, main);
      case ByConfirmer(confirm) => RecordsConfirm(cfg, s, confirm);
      case ByNetwork(network) =>
        forall m | FailedOnChain(s, m) ensures FailedOnChain(Apply(cfg, s, step), m) {
          FailureStaysStep(cfg, s, step, m);
        }
    }
  }

  lemma {:induction false} RecordsRun<M(!new)>(cfg: Config<M>, s: State<M>, steps: seq<Step<M>>)
    requires Final(cfg.commitment)
    requires Inv(cfg, s) && Records(cfg, s) && Run(cfg, s, steps).Some?
    ensures Records(cfg, Run(cfg, s, steps).value)
    decreases |steps|
  {
    if steps != [] {
      InvStep(cfg, s, steps[0]);
      RecordsStep(cfg, s, steps[0]);
      RecordsRun(cfg, Apply(cfg, s, steps[0]), steps[1..]);
    }
  }

  /** What a returned list means, index by index, in every run: whoever is in it was
      judged invalid or failed on chain, whoever was judged invalid is in it, and of those
      not in it all landed but at most one, which then failed on a runtime where another
      task could overtake the recording. */
  lemma {:induction false} ErrorsAreRight<M(!new)>(cfg: Config<M>, steps: seq<Step<M>>)
    requires Distinct(cfg.messages) && 1 <= cfg.signingCount && Final(cfg.commitment)
    requires Run(cfg, Start(), steps).Some?
    requires
      var end := Run(cfg, Start(), steps).value;
      end.main.Done? && end.main.outcome.Returned?
    ensures
      var end := Run(cfg, Start(), steps).value;
      var errors := end.main.outcome.errors;
      && (forall i :: i in errors ==>
            i < |cfg.messages| && (i in end.rejected || FailedOnChain(end, cfg.messages[i])))
      && end.rejected <= errors
      && (forall i :: 0 <= i < |cfg.messages| && i !in errors && cfg.messages[i] !in end.log ==>
            cfg.multiThreaded && FailedOnChain(end, cfg.messages[i]))
      && (forall i, j :: 0 <= i < j < |cfg.messages| && i !in errors && j !in errors ==>
            cfg.messages[i] in end.log || cfg.messages[j] in end.log)
  {
    RecordsRun(cfg, Start(), steps);
    NoneLostRun(cfg, Start(), steps);
    var end := Run(cfg, Start(), steps).value;
    var errors := end.main.outcome.errors;
    forall i | 0 <= i < |cfg.messages| && i !in errors && cfg.messages[i] !in end.log
      ensures Missing(cfg, end, errors, cfg.messages[i])
    {
      OwnIndex(cfg, errors, i);
    }
  }

  lemma {:induction false} OwnIndex<M(!new)>(cfg: Config<M>, errors: set<nat>, i: nat)
    requires Distinct(cfg.messages) && i < |cfg.messages|
    ensures Reported(cfg, errors, cfg.messages[i]) <==> i in errors
  {
    if Reported(cfg, errors, cfg.messages[i]) {
      var k :| k in errors && k < |cfg.messages| && cfg.messages[k] == cfg.messages[i];
      assert k == i;
    }
  }

  // ----------------------------------------------------------------------
  // What a check looks at

  lemma {:induction false} LastSeenStays<M(!new)>(cfg: Config<M>, s: State<M>, steps: seq<Step<M>>)
    requires !s.main.Setup? && (forall step :: step in steps ==> !step.ByConfirmer?) && Run(cfg, s, steps).Some?
    ensures
      var end := Run(cfg, s, steps).value;
      !end.main.Setup? && end.lastSeen == s.lastSeen && end.confirmer == s.confirmer
    decreases |steps|
  {
    if steps != [] {
      var next := Apply(cfg, s, steps[0]);
      assert steps[0] in steps;
      assert !next.main.Setup? && next.lastSeen == s.lastSeen && next.confirmer == s.confirmer;
      LastSeenStays(cfg, next, steps[1..]);
    }
  }

  /** Whatever the other tasks and the chain do before a check: it looks up exactly the
      tracked transactions that have not expired, and those that had not expired at the
      height last seen, even if they have by now. */
  lemma {:induction false} ExpiredAreChecked<M(!new)>(cfg: Config<M>, s: State<M>, steps: seq<Step<M>>,
                                                      g: Signature<M>)
    requires !s.main.Setup? && s.confirmer.Idle? && (forall step :: step in steps ==> !step.ByConfirmer?)
    requires Run(cfg, s, steps).Some? && g in Run(cfg, s, steps).value.unconfirmed
    ensures
      var end := Run(cfg, s, steps).value;
      && ConfirmEnabled(cfg, end, BeginCheck)
      && var next := ConfirmApply(cfg, end, BeginCheck).confirmer;
         && next.seen == end.height
         && (g in next.toVerify <==>
               s.lastSeen <= end.unconfirmed[g].lastValid || end.height <= end.unconfirmed[g].lastValid)
  {
    LastSeenStays(cfg, s, steps);
  }

  /** Two checks, one after the other: the second leaves out a tracked transaction exactly
      when it had expired at the height the first began with, and still has. */
  lemma {:induction false} BetweenChecks<M(!new)>(cfg: Config<M>, s: State<M>, steps: seq<Step<M>>, g: Signature<M>)
    requires !s.main.Setup? && s.confirmer.Checking? && (forall step :: step in steps ==> !step.ByConfirmer?)
    requires
      var end := Run(cfg, s, [ByConfirmer(EndCheck)] + steps);
      end.Some? && g in end.value.unconfirmed
    ensures
      var end := Run(cfg, s, [ByConfirmer(EndCheck)] + steps).value;
      && ConfirmEnabled(cfg, end, BeginCheck)
      && (g !in ConfirmApply(cfg, end, BeginCheck).confirmer.toVerify <==>
            end.unconfirmed[g].lastValid < s.confirmer.seen && end.unconfirmed[g].lastValid < end.height)
  {
    RunCons(cfg, s, ByConfirmer(EndCheck), steps);
    ExpiredAreChecked(cfg, ConfirmApply(cfg, s, EndCheck), steps, g);
  }

  // ----------------------------------------------------------------------
  // When a run ends without a result

  /** Setting up failed, or an attempt to send ended with an error that is not retried. */
  predicate IsFatal<M(==)>(step: Step<M>) {
    step.ByMain? && (step.main.SetupFails? || (step.main.SendDone? && step.main.reply.Fatal?))
  }

  predicate Doomed<M(==)>(s: State<M>) {
    if s.main.Sending? then s.main.failed else s.main == Done(SendFailed)
  }

  lemma {:induction false} DoomedStep<M(!new)>(cfg: Config<M>, s: State<M>, step: Step<M>)
    requires Enabled(cfg, s, step)
    ensures Doomed(Apply(cfg, s, step)) <==> Doomed(s) || IsFatal(step)
  {
    match step
    case ByMain(main) =>
      match main {
        case SetupFails =>
        case SetupDone(_, _, _) =>
        case SendDone(_, _) =>
        case Join(_) =>
        case _ =>
      }
    case ByConfirmer(confirm) => assert ConfirmApply(cfg, s, confirm).main == s.main;
    case ByNetwork(network) => assert NetworkApply(cfg, s, network).main == s.main;
  }

  lemma {:induction false} DoomedRun<M(!new)>(cfg: Config<M>, s: State<M>, steps: seq<Step<M>>)
    requires Run(cfg, s, steps).Some?
    ensures
      Doomed(Run(cfg, s, steps).value) <==> Doomed(s) || exists k :: 0 <= k < |steps| && IsFatal(steps[k])
    decreases |steps|
  {
    if steps != [] {
      DoomedStep(cfg, s, steps[0]);
      DoomedRun(cfg, Apply(cfg, s, steps[0]), steps[1..]);
      if k :| 0 < k < |steps| && IsFatal(steps[k]) {
        assert IsFatal(steps[1..][k - 1]);
      }
    }
  }

  /** A send is abandoned exactly when something in it failed for good: no such failure is
      passed over, however the run goes on, and nothing else abandons it. */
  lemma {:induction false} SendFailsExactly<M(!new)>(cfg: Config<M>, steps: seq<Step<M>>)
    requires
      var end := Run(cfg, Start(), steps);
      end.Some? && end.value.main.Done?
    ensures
      Run(cfg, Start(), steps).value.main.outcome == SendFailed
      <==> exists k :: 0 <= k < |steps| && IsFatal(steps[k])
  {
    DoomedRun(cfg, Start(), steps);
  }

  /** How often the main task came to the head of its loop. */
  function Rounds<M(==)>(steps: seq<Step<M>>): nat {
    if steps == [] then 0
    else (if steps[0] == ByMain(EnterRound) then 1 else 0) + Rounds(steps[1..])
  }

  /** `entered` rounds of those that are allowed have begun; one that gives up has asked
      for one more. */
  ghost predicate CountsRounds<M(!new)>(cfg: Config<M>, s: State<M>, entered: nat) {
    match s.main
    case Setup => entered == 0 && s.unconfirmed == map[]
    case LoopHead(left, initial) => left + entered == cfg.signingCount && (initial ==> s.unconfirmed == map[])
    case Collecting(left, _) => left + entered == cfg.signingCount
    case Clearing(left, _) => left + entered == cfg.signingCount
    case Sending(left, _, _, _) => left + entered == cfg.signingCount
    case Waiting(left, _) => left + entered == cfg.signingCount
    case RoundOver(left) => left + entered == cfg.signingCount
    case Finishing => s.unconfirmed != map[] ==> entered == cfg.signingCount + 1
    case Done(outcome) => outcome == MaxRetries ==> entered == cfg.signingCount + 1
  }

  lemma {:induction false} CountsRoundsMain<M(!new)>(cfg: Config<M>, s: State<M>, step: MainStep<M>, entered: nat)
    requires MainEnabled(cfg, s, step) && CountsRounds(cfg, s, entered)
    ensures CountsRounds(cfg, MainApply(cfg, s, step), entered + if step == EnterRound then 1 else 0)
  {
    if step.Collect? && step.batch == {} {
      assert s.unconfirmed == map[];
    }
  }

  lemma {:induction false} CountsRoundsStep<M(!new)>(cfg: Config<M>, s: State<M>, step: Step<M>, entered: nat)
    requires Enabled(cfg, s, step) && CountsRounds(cfg, s, entered)
    ensures CountsRounds(cfg, Apply(cfg, s, step), entered + if step == ByMain(EnterRound) then 1 else 0)
  {
    match step
    case ByMain(main) => CountsRoundsMain(cfg, s, main, entered);
    case ByConfirmer(confirm) =>
      assert ConfirmApply(cfg, s, confirm).main == s.main;
      assert ConfirmApply(cfg, s, confirm).unconfirmed.Keys <= s.unconfirmed.Keys;
    case ByNetwork(network) =>
      assert NetworkApply(cfg, s, network).main == s.main;
      assert NetworkApply(cfg, s, network).unconfirmed == s.unconfirmed;
  }

  lemma {:induction false} CountsRoundsRun<M(!new)>(cfg: Config<M>, s: State<M>, steps: seq<Step<M>>, entered: nat)
    requires CountsRounds(cfg, s, entered) && Run(cfg, s, steps).Some?
    ensures CountsRounds(cfg, Run(cfg, s, steps).value, entered + Rounds(steps))
    decreases |steps|
  {
    if steps != [] {
      CountsRoundsStep(cfg, s, steps[0], entered);
      CountsRoundsRun(cfg, Apply(cfg, s, steps[0]), steps[1..],
                      entered + if steps[0] == ByMain(EnterRound) then 1 else 0);
    }
  }

  /** The sender never gives up early: it does so only after all the rounds it may sign in. */
  lemma {:induction false} GivesUpLast<M(!new)>(cfg: Config<M>, steps: seq<Step<M>>)
    requires
      var end := Run(cfg, Start(), steps);
      end.Some? && end.value.main == Done(MaxRetries)
    ensures Rounds(steps) == cfg.signingCount + 1
  {
    CountsRoundsRun(cfg, Start(), steps, 0);
  }

  // ----------------------------------------------------------------------
  // At most one live signature per message

  /** The chain would still accept the transaction. */
  ghost predicate Live<M(!new)>(s: State<M>, g: Signature<M>) {
    && g in s.signed && g !in s.executed
    && g.blockhash in s.published && s.chainHeight <= s.published[g.blockhash]
  }

  ghost predicate Distinct<M(!new)>(messages: seq<M>) {
    forall i, j :: 0 <= i < j < |messages| ==> messages[i] != messages[j]
  }

  ghost predicate HeightsAgree<M(!new)>(s: State<M>) {
    && s.height <= s.chainHeight
    && (forall g :: g in s.signed ==> g.blockhash in s.published)
    && (forall g :: g in s.unconfirmed ==>
          g.blockhash in s.published && s.unconfirmed[g].lastValid == s.published[g.blockhash])
  }

  ghost predicate LiveTracked<M(!new)>(s: State<M>) {
    forall g :: Live(s, g) ==> g in s.unconfirmed
  }

  /** While the main task is between two rounds every tracked transaction has expired. */
  ghost predicate ExpiredBetweenRounds<M(!new)>(s: State<M>) {
    && (s.main.Waiting? ==> Bounds(s.main.maxValid, s.unconfirmed))
    && (s.main.RoundOver? || s.main.LoopHead? || s.main.Collecting? || s.main.Clearing? ==>
          forall g :: g in s.unconfirmed ==> s.unconfirmed[g].lastValid < s.chainHeight)
  }

  ghost predicate OnePerMessage<M(!new)>(s: State<M>) {
    && (forall g, h :: g in s.unconfirmed && h in s.unconfirmed && g.message == h.message ==> g == h)
    && (s.main.Sending? ==>
          forall g, it :: g in s.unconfirmed && it in s.main.todo ==> g.message != it.message)
  }

  ghost predicate Expiry<M(!new)>(s: State<M>) {
    BatchComplete(s) && HeightsAgree(s) && ExpiredBetweenRounds(s) && LiveTracked(s)
  }

  lemma {:induction false} HeightsAgreeMain<M(!new)>(cfg: Config<M>, s: State<M>, step: MainStep<M>)
    requires Final(cfg.commitment)
    requires HeightsAgree(s) && MainEnabled(cfg, s, step)
    ensures HeightsAgree(MainApply(cfg, s, step))
  {
  }

  lemma {:induction false} HeightsAgreeConfirm<M(!new)>(cfg: Config<M>, s: State<M>, step: ConfirmStep<M>)
    requires HeightsAgree(s) && ConfirmEnabled(cfg, s, step)
    ensures HeightsAgree(ConfirmApply(cfg, s, step))
  {
  }

  lemma {:induction false} HeightsAgreeNetwork<M(!new)>(cfg: Config<M>, s: State<M>, step: NetworkStep<M>)
    requires Final(cfg.commitment)
    requires HeightsAgree(s) && NetworkEnabled(cfg, s, step)
    ensures HeightsAgree(NetworkApply(cfg, s, step))
  {
  }

  lemma {:induction false} HeightsAgreeStep<M(!new)>(cfg: Config<M>, s: State<M>, step: Step<M>)
    requires Final(cfg.commitment)
    requires HeightsAgree(s) && Enabled(cfg, s, step)
    ensures HeightsAgree(Apply(cfg, s, step))
  {
    match step {
      case ByMain(main) => HeightsAgreeMain(cfg, s, main);
      case ByConfirmer(confirm) => HeightsAgreeConfirm(cfg, s, confirm);
      case ByNetwork(network) => HeightsAgreeNetwork(cfg, s, network);
    }
  }

  lemma {:induction false} ExpiredMain<M(!new)>(cfg: Config<M>, s: State<M>, step: MainStep<M>)
    requires Final(cfg.commitment)
    requires BatchComplete(s) && HeightsAgree(s) && ExpiredBetweenRounds(s) && MainEnabled(cfg, s, step)
    ensures ExpiredBetweenRounds(MainApply(cfg, s, step))
  {
  }

  lemma {:induction false} ExpiredConfirm<M(!new)>(cfg: Config<M>, s: State<M>, step: ConfirmStep<M>)
    requires Final(cfg.commitment)
    requires BatchComplete(s) && HeightsAgree(s) && ExpiredBetweenRounds(s) && ConfirmEnabled(cfg, s, step)
    ensures ExpiredBetweenRounds(ConfirmApply(cfg, s, step))
  {
  }

  lemma {:induction false} ExpiredNetwork<M(!new)>(cfg: Config<M>, s: State<M>, step: NetworkStep<M>)
    requires Final(cfg.commitment)
    requires BatchComplete(s) && HeightsAgree(s) && ExpiredBetweenRounds(s) && NetworkEnabled(cfg, s, step)
    ensures ExpiredBetweenRounds(NetworkApply(cfg, s, step))
  {
  }

  lemma {:induction false} ExpiredStep<M(!new)>(cfg: Config<M>, s: State<M>, step: Step<M>)
    requires Final(cfg.commitment)
    requires BatchComplete(s) && HeightsAgree(s) && ExpiredBetweenRounds(s) && Enabled(cfg, s, step)
    ensures ExpiredBetweenRounds(Apply(cfg, s, step))
  {
    match step {
      case ByMain(main) => ExpiredMain(cfg, s, main);
      case ByConfirmer(confirm) => ExpiredConfirm(cfg, s, confirm);
      case ByNetwork(network) => ExpiredNetwork(cfg, s, network);
    }
  }

  lemma {:induction false} LiveTrackedMain<M(!new)>(cfg: Config<M>, s: State<M>, step: MainStep<M>)
    requires Final(cfg.commitment)
    requires Expiry(s) && MainEnabled(cfg, s, step)
    ensures LiveTracked(MainApply(cfg, s, step))
  {
    var s' := MainApply(cfg, s, step);
    forall g | Live(s', g) ensures g in s'.unconfirmed {
      if g in s.signed {
        assert g in s.unconfirmed by { assert Live(s, g); }
      }
    }
  }

  lemma {:induction false} LiveTrackedStep<M(!new)>(cfg: Config<M>, s: State<M>, step: Step<M>)
    requires Final(cfg.commitment)
    requires Expiry(s) && Enabled(cfg, s, step)
    ensures LiveTracked(Apply(cfg, s, step))
  {
    if step.ByMain? {
      LiveTrackedMain(cfg, s, step.main);
    } else {
      var s' := Apply(cfg, s, step);
      forall g | Live(s', g) ensures g in s'.unconfirmed {
        assert Live(s, g);
      }
    }
  }

  lemma {:induction false} ExpiryStep<M(!new)>(cfg: Config<M>, s: State<M>, step: Step<M>)
    requires Final(cfg.commitment)
    requires Expiry(s) && Enabled(cfg, s, step)
    ensures Expiry(Apply(cfg, s, step))
  {
    BatchCompleteStep(cfg, s, step);
    HeightsAgreeStep(cfg, s, step);
    ExpiredStep(cfg, s, step);
    LiveTrackedStep(cfg, s, step);
  }

  lemma {:induction false} OnePerMessageMain<M(!new)>(cfg: Config<M>, s: State<M>, step: MainStep<M>)
    requires Distinct(cfg.messages) && HoldsItems(cfg, s)
    requires OnePerMessage(s) && MainEnabled(cfg, s, step)
    ensures OnePerMessage(MainApply(cfg, s, step))
  {
    var s' := MainApply(cfg, s, step);
    if step.Sign? {
      SignKeepsOnePerMessage(cfg, s, step.item, step.hash);
    } else {
      assert forall g :: g in s'.unconfirmed ==> g in s.unconfirmed;
    }
  }

  /** A step that tracks and queues nothing new. */
  lemma {:induction false} FewerKeepOnePerMessage<M(!new)>(s: State<M>, s': State<M>)
    requires OnePerMessage(s) && s'.main == s.main && s'.unconfirmed.Keys <= s.unconfirmed.Keys
    ensures OnePerMessage(s')
  {
    assert forall g :: g in s'.unconfirmed ==> g in s.unconfirmed;
  }

  lemma {:induction false} OnePerMessageStep<M(!new)>(cfg: Config<M>, s: State<M>, step: Step<M>)
    requires Distinct(cfg.messages) && HoldsItems(cfg, s)
    requires OnePerMessage(s) && Enabled(cfg, s, step)
    ensures OnePerMessage(Apply(cfg, s, step))
  {
    if step.ByMain? {
      OnePerMessageMain(cfg, s, step.main);
    } else {
      FewerKeepOnePerMessage(s, Apply(cfg, s, step));
    }
  }

  lemma {:induction false} SignKeepsOnePerMessage<M(!new)>(cfg: Config<M>, s: State<M>, item: Item<M>, hash: nat)
    requires Distinct(cfg.messages) && HoldsItems(cfg, s)
    requires OnePerMessage(s) && MainEnabled(cfg, s, Sign(item, hash))
    ensures OnePerMessage(MainApply(cfg, s, Sign(item, hash)))
  {
    var s' := MainApply(cfg, s, Sign(item, hash));
    var signature := Signature(item.message, hash);
    assert forall g :: g in s'.unconfirmed ==> g == signature || g in s.unconfirmed;
    forall it | it in s'.main.todo ensures it.message != item.message {
      assert IsItem(cfg, it) && IsItem(cfg, item) && it != item;
    }
  }

  lemma {:induction false} OneLiveRun<M(!new)>(cfg: Config<M>, s: State<M>, steps: seq<Step<M>>)
    requires Final(cfg.commitment)
    requires Distinct(cfg.messages)
    requires Inv(cfg, s) && Expiry(s) && OnePerMessage(s)
    requires Run(cfg, s, steps).Some?
    ensures Expiry(Run(cfg, s, steps).value) && OnePerMessage(Run(cfg, s, steps).value)
    decreases |steps|
  {
    if steps != [] {
      InvStep(cfg, s, steps[0]);
      ExpiryStep(cfg, s, steps[0]);
      OnePerMessageStep(cfg, s, steps[0]);
      OneLiveRun(cfg, Apply(cfg, s, steps[0]), steps[1..]);
    }
  }

  // ----------------------------------------------------------------------
  // How often a message is signed

  ghost function SignedFor<M(!new)>(signed: set<Signature<M>>, m: M): set<Signature<M>> {
    set g | g in signed && g.message == m
  }

  /** The rounds in which the message may still be signed. */
  ghost function RoundsLeft<M(!new)>(cfg: Config<M>, s: State<M>, m: M): nat {
    match s.main
    case Setup => cfg.signingCount
    case LoopHead(left, _) => left
    case Collecting(left, _) => left + 1
    case Clearing(left, _) => left + 1
    case Sending(left, todo, _, _) => left + (if Waits(todo, m) then 1 else 0)
    case Waiting(left, _) => left
    case RoundOver(left) => left
    case Finishing => 0
    case Done(_) => 0
  }

  ghost predicate SignedInTime<M(!new)>(cfg: Config<M>, s: State<M>, m: M) {
    |SignedFor(s.signed, m)| + RoundsLeft(cfg, s, m) <= cfg.signingCount
  }

  lemma {:induction false} SignsOnce<M(!new)>(cfg: Config<M>, s: State<M>, item: Item<M>, hash: nat, m: M)
    requires Distinct(cfg.messages) && HoldsItems(cfg, s)
    requires SignedInTime(cfg, s, m) && MainEnabled(cfg, s, Sign(item, hash))
    ensures SignedInTime(cfg, MainApply(cfg, s, Sign(item, hash)), m)
  {
    var s' := MainApply(cfg, s, Sign(item, hash));
    var g := Signature(item.message, hash);
    if item.message == m {
      assert SignedFor(s'.signed, m) == SignedFor(s.signed, m) + {g};
      assert Waits(s.main.todo, m);
      forall it | it in s'.main.todo ensures it.message != m {
        assert IsItem(cfg, it) && IsItem(cfg, item) && it != item;
      }
    } else {
      assert SignedFor(s'.signed, m) == SignedFor(s.signed, m);
      if Waits(s'.main.todo, m) {
        var it :| it in s'.main.todo && it.message == m;
        assert it in s.main.todo;
      }
    }
  }

  lemma {:induction false} SignedInTimeMain<M(!new)>(cfg: Config<M>, s: State<M>, step: MainStep<M>, m: M)
    requires SignedInTime(cfg, s, m) && MainEnabled(cfg, s, step) && !step.Sign?
    ensures SignedInTime(cfg, MainApply(cfg, s, step), m)
  {
    var s' := MainApply(cfg, s, step);
    assert s'.signed == s.signed;
    assert RoundsLeft(cfg, s', m) <= RoundsLeft(cfg, s, m);
  }

  lemma {:induction false} SignedInTimeStep<M(!new)>(cfg: Config<M>, s: State<M>, step: Step<M>, m: M)
    requires Distinct(cfg.messages) && HoldsItems(cfg, s)
    requires SignedInTime(cfg, s, m) && Enabled(cfg, s, step)
    ensures SignedInTime(cfg, Apply(cfg, s, step), m)
  {
    if step.ByMain? {
      if step.main.Sign? {
        SignsOnce(cfg, s, step.main.item, step.main.hash, m);
      } else {
        SignedInTimeMain(cfg, s, step.main, m);
      }
    } else {
      var s' := Apply(cfg, s, step);
      assert s'.signed == s.signed && s'.main == s.main;
    }
  }

  lemma {:induction false} SignedInTimeRun<M(!new)>(cfg: Config<M>, s: State<M>, steps: seq<Step<M>>, m: M)
    requires Distinct(cfg.messages) && Inv(cfg, s) && SignedInTime(cfg, s, m) && Run(cfg, s, steps).Some?
    ensures SignedInTime(cfg, Run(cfg, s, steps).value, m)
    decreases |steps|
  {
    if steps != [] {
      InvStep(cfg, s, steps[0]);
      SignedInTimeStep(cfg, s, steps[0], m);
      SignedInTimeRun(cfg, Apply(cfg, s, steps[0]), steps[1..], m);
    }
  }

  /** In every run each message is signed at most once per round. */
  lemma {:induction false} SignedPerRound<M(!new)>(cfg: Config<M>, steps: seq<Step<M>>, m: M)
    requires Distinct(cfg.messages) && Run(cfg, Start(), steps).Some?
    ensures |SignedFor(Run(cfg, Start(), steps).value.signed, m)| <= cfg.signingCount
  {
    assert SignedFor(Start<M>().signed, m) == {};
    SignedInTimeRun(cfg, Start(), steps, m);
  }

  lemma {:induction false} SmallerSet<T>(a: set<T>, b: set<T>)
    requires a <= b
    ensures |a| <= |b|
  {
    assert b == a + (b - a);
  }

  /** Signatures of some messages, at most `n` of each. */
  lemma {:induction false} SignedInAll<M(!new)>(signed: set<Signature<M>>, messages: seq<M>, n: nat)
    requires forall g :: g in signed ==> g.message in messages
    requires forall m :: |SignedFor(signed, m)| <= n
    ensures |signed| <= n * |messages|
    decreases |messages|
  {
    if messages == [] {
      assert signed == {};
    } else {
      var k := |messages| - 1;
      var last := messages[k];
      var rest := signed - SignedFor(signed, last);
      forall m ensures |SignedFor(rest, m)| <= n {
        SmallerSet(SignedFor(rest, m), SignedFor(signed, m));
      }
      assert messages == messages[..k] + [last];
      SignedInAll(rest, messages[..k], n);
      assert signed == rest + SignedFor(signed, last);
      OneMoreTimes(n, k);
    }
  }

  lemma {:induction false} OneMoreTimes(n: nat, k: nat)
    ensures n * (k + 1) == n * k + n
  {
  }

  /** So in every run, whatever the runtime and the commitment level, no more
      transactions are executed, and paid for, than messages times signing rounds. */
  lemma {:induction false} PaidPerRound<M(!new)>(cfg: Config<M>, steps: seq<Step<M>>)
    requires Distinct(cfg.messages) && Run(cfg, Start(), steps).Some?
    ensures
      var end := Run(cfg, Start(), steps).value;
      |end.executed| <= |end.signed| <= cfg.signingCount * |cfg.messages|
  {
    InvRun(cfg, Start(), steps);
    var end := Run(cfg, Start(), steps).value;
    forall m ensures |SignedFor(end.signed, m)| <= cfg.signingCount {
      SignedPerRound(cfg, steps, m);
    }
    SignedInAll(end.signed, cfg.messages, cfg.signingCount);
    SmallerSet(end.executed.Keys, end.signed);
  }

  /** At a final level a message is signed again only when its earlier signature can no
      longer land: at no point of any run can the chain still accept two of them. */
  lemma {:induction false} AtMostOneLiveSignature<M(!new)>(cfg: Config<M>, steps: seq<Step<M>>, g: Signature<M>,
                                                           h: Signature<M>)
    requires Distinct(cfg.messages) && Run(cfg, Start(), steps).Some?
    requires cfg.signingCount <= 1 || Final(cfg.commitment)
    requires Live(Run(cfg, Start(), steps).value, g) && Live(Run(cfg, Start(), steps).value, h)
    requires g.message == h.message
    ensures g == h
  {
    if Final(cfg.commitment) {
      OneLiveRun(cfg, Start(), steps);
    } else {
      var signed := SignedFor(Run(cfg, Start(), steps).value.signed, g.message);
      SignedPerRound(cfg, steps, g.message);
      assert g in signed && h in signed;
      SmallerSet({g, h}, signed);
    }
  }

  // ----------------------------------------------------------------------
  // Runs that report a success that did not happen

  lemma {:induction false} RunCons<M(!new)>(cfg: Config<M>, s: State<M>, step: Step<M>, rest: seq<Step<M>>)
    requires Enabled(cfg, s, step)
    ensures Run(cfg, s, [step] + rest) == Run(cfg, Apply(cfg, s, step), rest)
  {
    assert ([step] + rest)[1..] == rest;
  }

  lemma {:induction false} RunAppend<M(!new)>(cfg: Config<M>, s: State<M>, first: seq<Step<M>>, rest: seq<Step<M>>)
    requires Run(cfg, s, first).Some?
    ensures Run(cfg, s, first + rest) == Run(cfg, Run(cfg, s, first).value, rest)
    decreases |first|
  {
    if first == [] {
      assert first + rest == rest;
    } else {
      assert first + rest == [first[0]] + (first[1..] + rest);
      RunCons(cfg, s, first[0], first[1..] + rest);
      RunAppend(cfg, Apply(cfg, s, first[0]), first[1..], rest);
    }
  }

  /** One more step behind a run. */
  lemma {:induction false} Then<M(!new)>(cfg: Config<M>, s: State<M>, steps: seq<Step<M>>, step: Step<M>)
    requires Run(cfg, s, steps).Some? && Enabled(cfg, Run(cfg, s, steps).value, step)
    ensures Run(cfg, s, steps + [step]) == Some(Apply(cfg, Run(cfg, s, steps).value, step))
  {
    var end := Run(cfg, s, steps).value;
    RunAppend(cfg, s, steps, [step]);
    assert [step][1..] == [];
    assert Run(cfg, Apply(cfg, end, step), []) == Some(Apply(cfg, end, step));
  }

  /** With nothing to send or no signing round at all nothing is sent, nothing is
      tracked, and the empty map of tracked transactions is taken for success. */
  lemma {:induction false} ShortRun<M(!new)>(cfg: Config<M>) returns (steps: seq<Step<M>>)
    requires cfg.messages == [] || cfg.signingCount == 0
    ensures Run(cfg, Start(), steps).Some?
    ensures
      var end := Run(cfg, Start(), steps).value;
      ReportsSuccess(end) && end.log == [] && end.executed == map[]
  {
    steps := [];
    Then(cfg, Start(), steps, ByMain(SetupDone(0, 0, 0)));
    steps := steps + [ByMain(SetupDone(0, 0, 0))];
    Then(cfg, Start(), steps, ByMain(EnterRound));
    steps := steps + [ByMain(EnterRound)];
    Then(cfg, Start(), steps, ByMain(Finish));
    steps := steps + [ByMain(Finish)];
  }

  lemma {:induction false} NoRoundsReportSuccess<M(!new)>(cfg: Config<M>) returns (steps: seq<Step<M>>)
    requires cfg.messages != [] && cfg.signingCount == 0
    ensures Run(cfg, Start(), steps).Some?
    ensures
      var end := Run(cfg, Start(), steps).value;
      ReportsSuccess(end) && NothingFailed(end) && !AllLanded(cfg, end)
  {
    steps := ShortRun(cfg);
    assert cfg.messages[0] in cfg.messages;
  }

  /** What becomes of the transactions of one message in a scripted round: they land,
      fail, are executed in a block that is abandoned, or are not executed. */
  datatype Fate = Lands | Fails | Forks | Hangs

  ghost predicate FateMet<M(!new)>(s: State<M>, g: Signature<M>, m: M, fate: Fate) {
    match if g.message == m then fate else Lands
    case Lands => g in s.executed && s.executed[g]
    case Fails => g in s.executed && !s.executed[g]
    case Forks => g !in s.executed && g in s.forked && s.forked[g]
    case Hangs => g !in s.executed
  }

  /** Mid-round of a run with one blockhash in which every transaction is executed as
      it is sent, except that those for `m` have the given fate. */
  ghost predicate Scripted<M(!new)>(s: State<M>, m: M, fate: Fate) {
    && s.height == s.lastSeen == s.chainHeight == 0 && s.published == map[0 := 0] && s.errors == {}
    && (fate != Lands ==> m !in s.log)
    && (forall g :: g in s.signed ==> g.blockhash == 0 && FateMet(s, g, m, fate))
    && s.executed.Keys <= s.signed
    && (forall g :: g in s.unconfirmed ==> g in s.signed && s.unconfirmed[g].lastValid == 0)
  }

  ghost predicate ScriptedSending<M(!new)>(s: State<M>, m: M, fate: Fate) {
    && Scripted(s, m, fate) && s.confirmer.Idle?
    && s.main.Sending? && s.main.inFlight == {} && !s.main.failed
    && (Tracked(s.unconfirmed, m) || Waits(s.main.todo, m))
  }

  ghost function Sent<M(!new)>(s: State<M>, item: Item<M>): State<M>
    requires s.main.Sending?
  {
    s.(unconfirmed := s.unconfirmed[Signature(item.message, 0) := TransactionData(item, 0)],
       signed := s.signed + {Signature(item.message, 0)},
       main := s.main.(todo := s.main.todo - {item}))
  }

  /** One item is signed and handed over. */
  lemma {:induction false} SignAndSend<M(!new)>(cfg: Config<M>, s: State<M>, item: Item<M>)
    returns (steps: seq<Step<M>>)
    requires s.main.Sending? && s.main.inFlight == {} && item in s.main.todo && s.published == map[0 := 0]
    ensures Run(cfg, s, steps) == Some(Sent(s, item))
  {
    var sign, send := ByMain(Sign(item, 0)), ByMain(SendDone(item, Accepted));
    var s1 := Apply(cfg, s, sign);
    assert Apply(cfg, s1, send).main.inFlight == {};
    RunCons(cfg, s1, send, []);
    RunCons(cfg, s, sign, [send] + []);
    steps := [sign] + ([send] + []);
  }

  /** What the chain then does with it. */
  ghost function ChainStep<M(!new)>(g: Signature<M>, m: M, fate: Fate): NetworkStep<M> {
    if fate == Forks && g.message == m then Fork(g, true) else Execute(g, !(fate == Fails && g.message == m))
  }

  lemma {:induction false} SentKeeps<M(!new)>(s: State<M>, m: M, fate: Fate, item: Item<M>)
    requires ScriptedSending(s, m, fate) && item in s.main.todo
    requires Signature(item.message, 0) in s.signed || (fate == Hangs && item.message == m)
    ensures Scripted(Sent(s, item), m, fate)
  {
    SignKeepsFates(s, Sent(s, item), m, fate, Signature(item.message, 0));
  }

  lemma {:induction false} ChainKeeps<M(!new)>(cfg: Config<M>, s: State<M>, m: M, fate: Fate, item: Item<M>)
    requires ScriptedSending(s, m, fate) && item in s.main.todo
    requires Signature(item.message, 0) !in s.signed && !(fate == Hangs && item.message == m)
    ensures
      var chain := ChainStep(Signature(item.message, 0), m, fate);
      && NetworkEnabled(cfg, Sent(s, item), chain)
      && Scripted(NetworkApply(cfg, Sent(s, item), chain), m, fate)
  {
    var g := Signature(item.message, 0);
    SignKeepsFates(s, NetworkApply(cfg, Sent(s, item), ChainStep(g, m, fate)), m, fate, g);
  }

  /** Then its transaction meets its fate, unless the same transaction already has. */
  lemma {:induction false} SendOne<M(!new)>(cfg: Config<M>, s: State<M>, m: M, fate: Fate, item: Item<M>)
    returns (steps: seq<Step<M>>, end: State<M>)
    requires ScriptedSending(s, m, fate) && item in s.main.todo
    ensures Run(cfg, s, steps) == Some(end) && ScriptedSending(end, m, fate)
    ensures end.main.left == s.main.left && end.main.todo == s.main.todo - {item}
    ensures end.signed == s.signed + {Signature(item.message, 0)}
  {
    var g := Signature(item.message, 0);
    steps := SignAndSend(cfg, s, item);
    end := Sent(s, item);
    if g in s.signed || (fate == Hangs && item.message == m) {
      SentKeeps(s, m, fate, item);
    } else {
      ChainKeeps(cfg, s, m, fate, item);
      var chain := ByNetwork(ChainStep(g, m, fate));
      Then(cfg, s, steps, chain);
      end := Apply(cfg, end, chain);
      steps := steps + [chain];
    }
    SignKeepsWaiting(s, end, item, m);
  }

  /** One more signature whose fate is met, and nothing changed for the others. */
  lemma {:induction false} SignKeepsFates<M(!new)>(s: State<M>, end: State<M>, m: M, fate: Fate, g: Signature<M>)
    requires Scripted(s, m, fate) && end.signed == s.signed + {g} && FateMet(end, g, m, fate)
    requires forall h :: h in s.signed && h != g ==>
               && (h in end.executed <==> h in s.executed) && (h in s.executed ==> end.executed[h] == s.executed[h])
               && (h in s.forked ==> h in end.forked && end.forked[h] == s.forked[h])
    ensures forall h :: h in end.signed ==> FateMet(end, h, m, fate)
  {
    forall h | h in end.signed && h != g ensures FateMet(end, h, m, fate) {
      assert FateMet(s, h, m, fate);
    }
  }

  lemma {:induction false} SendAll<M(!new)>(cfg: Config<M>, s: State<M>, m: M, fate: Fate)
    returns (steps: seq<Step<M>>, end: State<M>)
    requires ScriptedSending(s, m, fate)
    ensures Run(cfg, s, steps) == Some(end) && ScriptedSending(end, m, fate)
    ensures end.main.left == s.main.left && end.main.todo == {}
    ensures s.signed <= end.signed && forall item :: item in s.main.todo ==> Signature(item.message, 0) in end.signed
    decreases |s.main.todo|
  {
    if s.main.todo == {} {
      return [], s;
    }
    var item :| item in s.main.todo;
    var first, next := SendOne(cfg, s, m, fate, item);
    var rest;
    rest, end := SendAll(cfg, next, m, fate);
    RunAppend(cfg, s, first, rest);
    steps := first + rest;
  }

  lemma {:induction false} SignKeepsWaiting<M(!new)>(s: State<M>, s': State<M>, item: Item<M>, m: M)
    requires s.main.Sending? && s'.main.Sending?
    requires s'.main.todo == s.main.todo - {item}
    requires s.unconfirmed.Keys + {Signature(item.message, 0)} == s'.unconfirmed.Keys
    requires Tracked(s.unconfirmed, m) || Waits(s.main.todo, m)
    ensures Tracked(s'.unconfirmed, m) || Waits(s'.main.todo, m)
  {
    if Tracked(s.unconfirmed, m) {
      var g :| g in s.unconfirmed && g.message == m;
      assert g in s'.unconfirmed;
    } else {
      var it :| it in s.main.todo && it.message == m;
      if it == item {
        assert Signature(m, 0) in s'.unconfirmed;
      } else {
        assert it in s'.main.todo;
      }
    }
  }

  /** A failure goes unreported only if another task can run in between, and an
      abandoned execution is taken for a real one only at the lowest level. */
  ghost predicate Passes<M(!new)>(cfg: Config<M>, fate: Fate) {
    match fate
    case Lands => true
    case Fails => cfg.multiThreaded
    case Forks => !Final(cfg.commitment)
    case Hangs => false
  }

  /** The confirmation task removes every transaction, that of `m` last; if it failed,
      the main task takes over before the failure is recorded. */
  lemma {:induction false} ConfirmAll<M(!new)>(cfg: Config<M>, s: State<M>, m: M, fate: Fate)
    returns (steps: seq<Step<M>>)
    requires Passes(cfg, fate) && Scripted(s, m, fate) && Tracked(s.unconfirmed, m)
    requires s.confirmer.Checking? && s.unconfirmed.Keys <= s.confirmer.toVerify
    ensures Run(cfg, s, steps).Some?
    ensures
      var end := Run(cfg, s, steps).value;
      && end.main == s.main && end.unconfirmed == map[] && end.errors == {}
      && end.log == s.log && end.executed == s.executed
    decreases |s.unconfirmed|
  {
    var g0 := Signature(m, 0);
    assert g0 in s.unconfirmed;
    assert FateMet(s, g0, m, fate);
    if s.unconfirmed.Keys == {g0} {
      var end := Apply(cfg, s, ByConfirmer(Confirm(g0)));
      assert end.unconfirmed == map[];
      RunCons(cfg, s, ByConfirmer(Confirm(g0)), []);
      steps := [ByConfirmer(Confirm(g0))] + [];
    } else {
      assert s.unconfirmed.Keys - {g0} != {};
      var g :| g in s.unconfirmed.Keys - {g0};
      ConfirmOne(cfg, s, m, fate, g);
      var s1 := s.(unconfirmed := s.unconfirmed - {g});
      assert |s1.unconfirmed.Keys| < |s.unconfirmed.Keys| by {
        assert s1.unconfirmed.Keys == s.unconfirmed.Keys - {g};
      }
      assert g0 in s1.unconfirmed;
      var rest := ConfirmAll(cfg, s1, m, fate);
      RunCons(cfg, s, ByConfirmer(Confirm(g)), rest);
      steps := [ByConfirmer(Confirm(g))] + rest;
    }
  }

  lemma {:induction false} ConfirmOne<M(!new)>(cfg: Config<M>, s: State<M>, m: M, fate: Fate, g: Signature<M>)
    requires Scripted(s, m, fate) && g in s.unconfirmed && g != Signature(m, 0)
    requires s.confirmer.Checking? && g in s.confirmer.toVerify
    ensures
      var s1 := s.(unconfirmed := s.unconfirmed - {g});
      && Scripted(s1, m, fate)
      && Enabled(cfg, s, ByConfirmer(Confirm(g))) && Apply(cfg, s, ByConfirmer(Confirm(g))) == s1
  {
    assert g.message != m && FateMet(s, g, m, fate);
    var s1 := s.(unconfirmed := s.unconfirmed - {g});
    forall h | h in s1.signed ensures FateMet(s1, h, m, fate) {
      assert FateMet(s, h, m, fate);
    }
  }

  lemma {:induction false} RoundBegins<M(!new)>(cfg: Config<M>, fate: Fate) returns (steps: seq<Step<M>>)
    requires cfg.messages != [] && 1 <= cfg.signingCount
    ensures Run(cfg, Start(), steps).Some?
    ensures
      var end := Run(cfg, Start(), steps).value;
      && Scripted(end, cfg.messages[0], fate) && end.confirmer.Idle?
      && end.main == Sending(cfg.signingCount - 1, Items(cfg), {}, false)
  {
    steps := [];
    Then(cfg, Start(), steps, ByMain(SetupDone(0, 0, 0)));
    steps := steps + [ByMain(SetupDone(0, 0, 0))];
    Then(cfg, Start(), steps, ByMain(EnterRound));
    steps := steps + [ByMain(EnterRound)];
    Then(cfg, Start(), steps, ByMain(Clear));
    steps := steps + [ByMain(Clear)];
  }

  /** Once nothing is tracked any more, the round and the send are over. */
  lemma {:induction false} Closing<M(!new)>(cfg: Config<M>, s: State<M>) returns (steps: seq<Step<M>>)
    requires s.main.Waiting? && s.unconfirmed == map[] && s.errors == {}
    ensures Run(cfg, s, steps).Some?
    ensures
      var end := Run(cfg, s, steps).value;
      ReportsSuccess(end) && end.log == s.log && end.executed == s.executed
  {
    steps := [];
    Then(cfg, s, steps, ByMain(StopWaiting));
    steps := steps + [ByMain(StopWaiting)];
    Then(cfg, s, steps, ByMain(EndRound));
    steps := steps + [ByMain(EndRound)];
    Then(cfg, s, steps, ByMain(Finish));
    steps := steps + [ByMain(Finish)];
  }

  lemma {:induction false} RoundEnds<M(!new)>(cfg: Config<M>, s: State<M>, m: M, fate: Fate)
    returns (steps: seq<Step<M>>)
    requires Passes(cfg, fate) && Scripted(s, m, fate) && Tracked(s.unconfirmed, m)
    requires s.confirmer.Idle? && s.main.Sending? && s.main.todo == {} && s.main.inFlight == {} && !s.main.failed
    ensures Run(cfg, s, steps).Some?
    ensures
      var end := Run(cfg, s, steps).value;
      ReportsSuccess(end) && end.log == s.log && end.executed == s.executed
  {
    var s1 := Apply(cfg, s, ByMain(Join(0)));
    var s2 := Apply(cfg, s1, ByConfirmer(BeginCheck));
    assert s2.unconfirmed.Keys <= s2.confirmer.toVerify;
    var confirms := ConfirmAll(cfg, s2, m, fate);
    var tail := Closing(cfg, Run(cfg, s2, confirms).value);
    RunAppend(cfg, s2, confirms, tail);
    RunCons(cfg, s1, ByConfirmer(BeginCheck), confirms + tail);
    RunCons(cfg, s, ByMain(Join(0)), [ByConfirmer(BeginCheck)] + (confirms + tail));
    steps := [ByMain(Join(0))] + ([ByConfirmer(BeginCheck)] + (confirms + tail));
  }

  /** The first round up to the point where everything is sent. */
  lemma {:induction false} FirstRoundSent<M(!new)>(cfg: Config<M>, fate: Fate) returns (steps: seq<Step<M>>)
    requires cfg.messages != [] && 1 <= cfg.signingCount
    ensures Run(cfg, Start(), steps).Some?
    ensures
      var end := Run(cfg, Start(), steps).value;
      && ScriptedSending(end, cfg.messages[0], fate)
      && end.main.todo == {} && end.main.left == cfg.signingCount - 1
      && forall n :: n in cfg.messages ==> Signature(n, 0) in end.signed
  {
    var m := cfg.messages[0];
    var begin := RoundBegins(cfg, fate);
    var s1 := Run(cfg, Start(), begin).value;
    assert Item(0, m) in s1.main.todo;
    var send, s2 := SendAll(cfg, s1, m, fate);
    RunAppend(cfg, Start(), begin, send);
    steps := begin + send;
    forall n | n in cfg.messages ensures Signature(n, 0) in s2.signed {
      var i :| 0 <= i < |cfg.messages| && cfg.messages[i] == n;
      assert Item(i, n) in s1.main.todo;
    }
  }

  /** A whole run of one round that reports success: everything lands, or the first
      message does not and that goes unnoticed. */
  lemma {:induction false} OneRound<M(!new)>(cfg: Config<M>, fate: Fate) returns (steps: seq<Step<M>>)
    requires cfg.messages != [] && 1 <= cfg.signingCount && Passes(cfg, fate)
    ensures Run(cfg, Start(), steps).Some?
    ensures
      var end := Run(cfg, Start(), steps).value;
      && ReportsSuccess(end)
      && (fate != Lands ==> cfg.messages[0] !in end.log) && (fate != Fails ==> NothingFailed(end))
  {
    var m := cfg.messages[0];
    var sent := FirstRoundSent(cfg, fate);
    var s := Run(cfg, Start(), sent).value;
    var end := RoundEnds(cfg, s, m, fate);
    RunAppend(cfg, Start(), sent, end);
    steps := sent + end;
  }

  /** Where the main task can run between the removal of a failed transaction and
      the recording of its error, a failure can go unreported. */
  lemma {:induction false} RaceReportsSuccess<M(!new)>(cfg: Config<M>) returns (steps: seq<Step<M>>)
    requires cfg.messages != [] && 1 <= cfg.signingCount && cfg.multiThreaded
    ensures Run(cfg, Start(), steps).Some?
    ensures ReportsSuccess(Run(cfg, Start(), steps).value) && !AllLanded(cfg, Run(cfg, Start(), steps).value)
  {
    steps := OneRound(cfg, Fails);
    assert cfg.messages[0] in cfg.messages;
  }

  /** At the lowest commitment level an execution in a block that is abandoned later is
      taken for a success, on any runtime and without any failed transaction. */
  lemma {:induction false} ForkReportsSuccess<M(!new)>(cfg: Config<M>) returns (steps: seq<Step<M>>)
    requires cfg.messages != [] && 1 <= cfg.signingCount && !Final(cfg.commitment)
    ensures Run(cfg, Start(), steps).Some?
    ensures
      var end := Run(cfg, Start(), steps).value;
      ReportsSuccess(end) && NothingFailed(end) && !AllLanded(cfg, end)
  {
    steps := OneRound(cfg, Forks);
    assert cfg.messages[0] in cfg.messages;
  }

  /** A reported success can be trusted exactly when there is nothing to send, or there
      is at least one signing round, statuses are asked for at a final level, and no
      task can run between the two halves of a failed confirmation. */
  lemma {:induction false} TrustworthyExactly<M(!new)>(cfg: Config<M>)
    ensures Trustworthy(cfg) <==>
              cfg.messages == [] || (1 <= cfg.signingCount && Final(cfg.commitment) && !cfg.multiThreaded)
  {
    if cfg.messages == [] || (1 <= cfg.signingCount && Final(cfg.commitment) && !cfg.multiThreaded) {
      forall steps: seq<Step<M>> |
        Run(cfg, Start(), steps).Some? && ReportsSuccess(Run(cfg, Start(), steps).value)
        ensures AllLanded(cfg, Run(cfg, Start(), steps).value)
      {
        SuccessIsTrue(cfg, steps);
      }
    } else if cfg.signingCount == 0 {
      var steps := NoRoundsReportSuccess(cfg);
    } else if !Final(cfg.commitment) {
      var steps := ForkReportsSuccess(cfg);
    } else {
      var steps := RaceReportsSuccess(cfg);
    }
  }

  /** The same, but only about runs in which no transaction fails on chain. */
  ghost predicate TrustworthyUnlessFailed<M(!new)>(cfg: Config<M>) {
    forall steps: seq<Step<M>> ::
      var end := Run(cfg, Start(), steps);
      end.Some? && ReportsSuccess(end.value) && NothingFailed(end.value) ==> AllLanded(cfg, end.value)
  }

  /** Of such runs a reported success can be trusted, on any runtime, exactly when
      there is nothing to send, or at least one signing round and a final level. */
  lemma {:induction false} FailureIsNeeded<M(!new)>(cfg: Config<M>)
    ensures TrustworthyUnlessFailed(cfg) <==>
              cfg.messages == [] || (1 <= cfg.signingCount && Final(cfg.commitment))
  {
    if cfg.messages == [] || (1 <= cfg.signingCount && Final(cfg.commitment)) {
      forall steps: seq<Step<M>> |
        var end := Run(cfg, Start(), steps);
        end.Some? && ReportsSuccess(end.value) && NothingFailed(end.value)
        ensures AllLanded(cfg, Run(cfg, Start(), steps).value)
      {
        SuccessIsTrue(cfg, steps);
      }
    } else if cfg.signingCount == 0 {
      var steps := NoRoundsReportSuccess(cfg);
    } else {
      var steps := ForkReportsSuccess(cfg);
    }
  }

  /** `more` differs from `cfg` only in allowing more: further stale messages, or the
      lowest commitment level. */
  ghost predicate AllowsMore<M(!new)>(cfg: Config<M>, more: Config<M>) {
    && more == cfg.(stale := more.stale, commitment := more.commitment) && cfg.stale <= more.stale
    && (Final(more.commitment) ==> Final(cfg.commitment))
  }

  /** Then a run under `cfg` is a run under `more`. */
  lemma {:induction false} MoreRuns<M(!new)>(cfg: Config<M>, more: Config<M>, s: State<M>, steps: seq<Step<M>>)
    requires AllowsMore(cfg, more) && Run(cfg, s, steps).Some?
    ensures Run(more, s, steps) == Run(cfg, s, steps)
    decreases |steps|
  {
    if steps != [] {
      assert Enabled(more, s, steps[0]) && Apply(more, s, steps[0]) == Apply(cfg, s, steps[0]);
      MoreRuns(cfg, more, Apply(cfg, s, steps[0]), steps[1..]);
    }
  }

  /** A run without stale messages, in the presence of stale messages. */
  lemma {:induction false} CalmRun<M(!new)>(calm: Config<M>, cfg: Config<M>, steps: seq<Step<M>>)
    requires AllowsMore(calm, cfg) && calm.stale == {} && Run(calm, Start(), steps).Some?
    ensures Run(cfg, Start(), steps) == Run(calm, Start(), steps)
    ensures forall m :: m in Run(cfg, Start(), steps).value.log ==> m in cfg.messages
  {
    OnlyGivenMessagesLand(calm, steps);
    MoreRuns(calm, cfg, Start(), steps);
  }

  /** A run that reports success with a message missing, and in which nothing but
      the given messages lands. */
  lemma {:induction false} FalseSuccess<M(!new)>(cfg: Config<M>) returns (steps: seq<Step<M>>)
    requires cfg.messages != [] && (cfg.signingCount == 0 || cfg.multiThreaded || !Final(cfg.commitment))
    ensures Run(cfg, Start(), steps).Some?
    ensures
      var end := Run(cfg, Start(), steps).value;
      && ReportsSuccess(end) && !AllLanded(cfg, end) && (forall m :: m in end.log ==> m in cfg.messages)
      && (cfg.signingCount == 0 || !Final(cfg.commitment) ==> NothingFailed(end))
  {
    var calm := cfg.(stale := {});
    if cfg.signingCount == 0 {
      steps := NoRoundsReportSuccess(calm);
    } else if !Final(cfg.commitment) {
      steps := ForkReportsSuccess(calm);
    } else {
      steps := RaceReportsSuccess(calm);
    }
    CalmRun(calm, cfg, steps);
  }

  /** Success is always possible: some run reports it, lands nothing but the given
      messages and fails none of them, and with a signing round it lands them all. */
  lemma {:induction false} SuccessIsPossible<M(!new)>(cfg: Config<M>) returns (steps: seq<Step<M>>)
    ensures Run(cfg, Start(), steps).Some?
    ensures
      var end := Run(cfg, Start(), steps).value;
      && ReportsSuccess(end) && NothingFailed(end) && (forall m :: m in end.log ==> m in cfg.messages)
      && (1 <= cfg.signingCount ==> AllLanded(cfg, end))
  {
    var calm := cfg.(stale := {}, commitment := Finalized);
    if cfg.messages == [] || cfg.signingCount == 0 {
      steps := ShortRun(calm);
    } else {
      steps := OneRound(calm, Lands);
    }
    CalmRun(calm, cfg, steps);
    if 1 <= cfg.signingCount {
      SuccessIsTrue(calm, steps);
    }
  }

  // ----------------------------------------------------------------------
  // Runs that sign a message again

  ghost function ItemsOf<M(!new)>(entries: map<Signature<M>, TransactionData<M>>): set<Item<M>> {
    set g | g in entries :: entries[g].item
  }

  /** When the client believes that the first round's blockhash has expired, the second
      round signs the first message again with a new one. */
  lemma {:induction false} NextRound<M(!new)>(cfg: Config<M>, s: State<M>, m: M) returns (steps: seq<Step<M>>)
    requires s.main.Waiting? && 1 <= s.main.left && s.main.maxValid < s.height
    requires s.published == map[0 := 0] && s.chainHeight <= 1
    requires AreEntries(cfg, s.unconfirmed) && Tracked(s.unconfirmed, m)
    ensures Run(cfg, s, steps).Some?
    ensures
      var end := Run(cfg, s, steps).value;
      && end.signed == s.signed + {Signature(m, 1)} && end.executed == s.executed
      && end.published == map[0 := 0, 1 := 1] && end.chainHeight == s.chainHeight
  {
    var g :| g in s.unconfirmed && g.message == m;
    var batch, item := ItemsOf(s.unconfirmed), s.unconfirmed[g].item;
    assert item in batch && item.message == m;
    steps := Reenter(cfg, s);
    var rest := SignAgain(cfg, Run(cfg, s, steps).value, item);
    RunAppend(cfg, s, steps, rest);
    steps := steps + rest;
  }

  lemma {:induction false} CollectAll<M(!new)>(cfg: Config<M>, s: State<M>)
    requires s.main.Collecting? && s.main.snapshot == s.unconfirmed && s.unconfirmed != map[]
    ensures
      var batch := ItemsOf(s.unconfirmed);
      && Enabled(cfg, s, ByMain(Collect(batch)))
      && Apply(cfg, s, ByMain(Collect(batch))) == s.(main := Clearing(s.main.left, batch))
  {
    var g :| g in s.unconfirmed;
    assert s.unconfirmed[g].item in ItemsOf(s.unconfirmed);
  }

  lemma {:induction false} Reenter<M(!new)>(cfg: Config<M>, s: State<M>) returns (steps: seq<Step<M>>)
    requires s.main.Waiting? && 1 <= s.main.left && s.main.maxValid < s.height && s.unconfirmed != map[]
    ensures Run(cfg, s, steps) == Some(s.(main := Clearing(s.main.left - 1, ItemsOf(s.unconfirmed))))
  {
    steps := [];
    Then(cfg, s, steps, ByMain(StopWaiting));
    steps := steps + [ByMain(StopWaiting)];
    Then(cfg, s, steps, ByMain(EndRound));
    steps := steps + [ByMain(EndRound)];
    Then(cfg, s, steps, ByMain(EnterRound));
    steps := steps + [ByMain(EnterRound)];
    CollectAll(cfg, Run(cfg, s, steps).value);
    Then(cfg, s, steps, ByMain(Collect(ItemsOf(s.unconfirmed))));
    steps := steps + [ByMain(Collect(ItemsOf(s.unconfirmed)))];
  }

  lemma {:induction false} SignAgain<M(!new)>(cfg: Config<M>, s: State<M>, item: Item<M>) returns (steps: seq<Step<M>>)
    requires s.main.Clearing? && item in s.main.batch && s.published == map[0 := 0]
    ensures Run(cfg, s, steps).Some?
    ensures
      var end := Run(cfg, s, steps).value;
      && end.signed == s.signed + {Signature(item.message, 1)} && end.executed == s.executed
      && end.published == map[0 := 0, 1 := 1] && end.chainHeight == s.chainHeight
  {
    steps := [];
    Then(cfg, s, steps, ByMain(Clear));
    steps := steps + [ByMain(Clear)];
    Then(cfg, s, steps, ByNetwork(Publish(1, 1)));
    steps := steps + [ByNetwork(Publish(1, 1))];
    Then(cfg, s, steps, ByMain(Sign(item, 1)));
    steps := steps + [ByMain(Sign(item, 1))];
  }

  /** After the first round has been sent: the client sees a block height past the
      blockhash's, truly or, if `early`, in a block that will be abandoned. */
  lemma {:induction false} ExpirySeen<M(!new)>(cfg: Config<M>, s: State<M>, m: M, fate: Fate, early: bool)
    returns (steps: seq<Step<M>>)
    requires ScriptedSending(s, m, fate) && s.main.todo == {} && (early ==> !Final(cfg.commitment))
    ensures Run(cfg, s, steps).Some?
    ensures Run(cfg, s, steps).value ==
              s.(main := Waiting(s.main.left, 0), height := 1, chainHeight := if early then 0 else 1)
  {
    steps := [];
    Then(cfg, s, steps, ByMain(Join(0)));
    steps := steps + [ByMain(Join(0))];
    if !early {
      Then(cfg, s, steps, ByNetwork(Advance));
      steps := steps + [ByNetwork(Advance)];
    }
    Then(cfg, s, steps, ByNetwork(Observe(1)));
    steps := steps + [ByNetwork(Observe(1))];
  }

  lemma {:induction false} TwoRounds<M(!new)>(cfg: Config<M>, fate: Fate, early: bool) returns (steps: seq<Step<M>>)
    requires cfg.messages != [] && 2 <= cfg.signingCount && (early ==> !Final(cfg.commitment))
    ensures Run(cfg, Start(), steps).Some?
    ensures
      var end := Run(cfg, Start(), steps).value;
      var m := cfg.messages[0];
      && Signature(m, 0) in end.signed && Signature(m, 1) in end.signed && Signature(m, 1) !in end.executed
      && (fate == Lands ==> forall n :: n in cfg.messages ==> Signature(n, 0) in end.executed)
      && (fate == Hangs ==> Signature(m, 0) !in end.executed)
      && end.published == map[0 := 0, 1 := 1] && end.chainHeight == if early then 0 else 1
  {
    var m := cfg.messages[0];
    var first := FirstRoundSent(cfg, fate);
    InvRun(cfg, Start(), first);
    var s1 := Run(cfg, Start(), first).value;
    var seen := ExpirySeen(cfg, s1, m, fate, early);
    RunAppend(cfg, Start(), first, seen);
    var s2 := Run(cfg, s1, seen).value;
    assert Tracked(s2.unconfirmed, m);
    forall n | n in cfg.messages ensures FateMet(s1, Signature(n, 0), m, fate) {
      assert Signature(n, 0) in s1.signed;
    }
    var next := NextRound(cfg, s2, m);
    RunAppend(cfg, Start(), first + seen, next);
    steps := first + seen + next;
  }

  /** A message can be paid for twice: its transaction was executed, no status came back
      in time, and it was signed and executed again. */
  lemma {:induction false} PaidTwice<M(!new)>(cfg: Config<M>) returns (steps: seq<Step<M>>)
    requires cfg.messages != [] && 2 <= cfg.signingCount
    ensures Run(cfg, Start(), steps).Some?
    ensures
      var end := Run(cfg, Start(), steps).value;
      && Signature(cfg.messages[0], 1) in end.executed
      && forall m :: m in cfg.messages ==> Signature(m, 0) in end.executed
  {
    steps := TwoRounds(cfg, Lands, false);
    var again := ByNetwork(Execute(Signature(cfg.messages[0], 1), true));
    Then(cfg, Start(), steps, again);
    steps := steps + [again];
  }

  ghost function FirstSignatures<M(!new)>(messages: seq<M>): set<Signature<M>> {
    set m | m in messages :: Signature(m, 0)
  }

  lemma {:induction false} AsManyAsMessages<M(!new)>(messages: seq<M>)
    requires Distinct(messages)
    ensures |FirstSignatures(messages)| == |messages|
    decreases |messages|
  {
    if messages != [] {
      var k := |messages| - 1;
      AsManyAsMessages(messages[..k]);
      assert messages == messages[..k] + [messages[k]];
      assert FirstSignatures(messages) == FirstSignatures(messages[..k]) + {Signature(messages[k], 0)};
      assert Signature(messages[k], 0) !in FirstSignatures(messages[..k]);
    }
  }

  ghost predicate NeverPaidTwice<M(!new)>(cfg: Config<M>) {
    forall steps: seq<Step<M>> ::
      var end := Run(cfg, Start(), steps);
      end.Some? ==> |end.value.executed| <= |cfg.messages|
  }

  /** No run executes more transactions than there are messages exactly when no message
      is signed in a second round. */
  lemma {:induction false} PaidOnceExactly<M(!new)>(cfg: Config<M>)
    requires Distinct(cfg.messages)
    ensures NeverPaidTwice(cfg) <==> cfg.messages == [] || cfg.signingCount <= 1
  {
    if cfg.messages == [] || cfg.signingCount <= 1 {
      forall steps: seq<Step<M>> | Run(cfg, Start(), steps).Some?
        ensures |Run(cfg, Start(), steps).value.executed| <= |cfg.messages|
      {
        PaidPerRound(cfg, steps);
        AtMostOnceEach(cfg.signingCount, |cfg.messages|);
      }
    } else {
      var steps := PaidTwice(cfg);
      var executed := Run(cfg, Start(), steps).value.executed;
      var first := FirstSignatures(cfg.messages);
      AsManyAsMessages(cfg.messages);
      SmallerSet(first + {Signature(cfg.messages[0], 1)}, executed.Keys);
    }
  }

  lemma {:induction false} AtMostOnceEach(n: nat, k: nat)
    requires n <= 1 || k == 0
    ensures n * k <= k
  {
    if n == 1 {
      assert n * k == k;
    }
  }

  ghost predicate OneLive<M(!new)>(cfg: Config<M>) {
    forall steps: seq<Step<M>>, g, h ::
      var end := Run(cfg, Start(), steps);
      end.Some? && Live(end.value, g) && Live(end.value, h) && g.message == h.message ==> g == h
  }

  /** The chain can never accept two signatures of one message, in all runs, exactly
      when there is nothing to send, or no message is signed again, or block heights are
      asked for at a final level: one seen in a block that is abandoned comes too early. */
  lemma {:induction false} OneLiveExactly<M(!new)>(cfg: Config<M>)
    requires Distinct(cfg.messages)
    ensures OneLive(cfg) <==> cfg.messages == [] || cfg.signingCount <= 1 || Final(cfg.commitment)
  {
    if cfg.messages == [] || cfg.signingCount <= 1 || Final(cfg.commitment) {
      forall steps: seq<Step<M>>, g, h |
        var end := Run(cfg, Start(), steps);
        end.Some? && Live(end.value, g) && Live(end.value, h) && g.message == h.message
        ensures g == h
      {
        if cfg.messages == [] {
          InvRun(cfg, Start(), steps);
        } else {
          AtMostOneLiveSignature(cfg, steps, g, h);
        }
      }
    } else {
      var steps := TwoRounds(cfg, Hangs, true);
      var m := cfg.messages[0];
      var end := Run(cfg, Start(), steps).value;
      assert Live(end, Signature(m, 0)) && Live(end, Signature(m, 1));
    }
  }
}
