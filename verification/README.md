# Verified model of the program upload and account logic of the Agave CLI

A Dafny model of the parts of the repository in which several functions, tasks or
machines have to agree with each other: the resumable program upload of the command-line
tool together with the parallel transaction sender and the on-chain loader it drives,
the fee and spend resolution around it, and the reports and queries of the same tool.
`dafny verify dfyconfig.toml` checks everything.

## What is modelled

* **The parallel sender** (`ParallelSend.dfy`). Three concurrent tasks share two maps:
  the main task signs, sends, waits and signs again; the confirmation task removes
  transactions and records errors; an updater refreshes blockhash and block height. A run
  is any interleaving of their atomic steps with those of the chain, which may execute a
  transaction, let it fail, let it expire, or execute it in a block that is abandoned.
  Collecting the concurrent map is not atomic in the model either. What the client is
  shown depends on the commitment level it asks for.
* **Planning and resuming** (`ChunkPlan.dfy`). The file is cut into chunks and only the
  chunks that differ from the buffer are written; writes land in any order, repeatedly,
  late, or never, over any number of crashed attempts with any chunk sizes.
* **The loader and its accounts** (`LoaderState.dfy`, `Loader.dfy`, `ExtendProgram.dfy`):
  the byte layout of loader accounts, the write, deploy and upgrade instructions on
  those bytes, and the sizes an extension may have.
* **The whole upload** (`DeployRun.dfy`): fetching the buffer, planning, the initial
  message, the sender's run, and the state of the buffer when the final message goes out.
* **Messages on the wire and their cost** (`Wire.dfy`, `ComputeBudget.dfy`, `Fee.dfy`,
  `WriteMessages.dfy`, `SendCost.dfy`, `Spend.dfy`): transaction encoding with compact
  lengths, the compute-budget instructions inside a message, the cluster's fee, the payer
  check and the cost of whole runs, and the resolution of an amount to spend.
* **Reports and queries** (`BlockProduction.dfy`, `StakeTotals.dfy`, `FeatureGate.dfy`,
  `AccountFilters.dfy`, with the map sums they share in `Tally.dfy`).
* **Two sequencing problems** (`StakeAuthorize.dfy`, `PathMap.dfy`).

Replies of the network are parameters: arbitrary values, and for the sender an arbitrary
interleaving. Integers are unbounded except where the source's width matters; saturating
sums and truncating casts are written out (`Prelude.dfy`).

## Where the code does less than it seems to promise

Each of these but the last rests on an if-and-only-if, with a failing run or input
constructed in a lemma of its own.

* A sender that reports success can be trusted exactly when there is nothing to send, or
  it has at least one signing round, asks for statuses at a final commitment level, and no
  other task can run between the two halves of a failed confirmation
  (`TrustworthyExactly`). With `--max-sign-attempts 0`, which the argument's validator
  admits, it returns success without sending anything (`NoRoundsReportSuccess`). With
  `--commitment processed` a status from a block that is abandoned later counts as success
  (`ForkReportsSuccess`), a buffer seen in such a block counts as found
  (`AccountAbandoned`), and a block height from such a block lets a message be signed again
  too early (`OneLiveExactly`). On a multi-threaded runtime the confirmation task removes a
  failed transaction from one map before it records the error in the other, and the main
  task may finish in between (`RaceReportsSuccess`).
* The command-line tool runs on the multi-threaded runtime (the bare `#[tokio::main]` at
  bin/cli/src/main.rs:229). What a reported success means there, given a signing round and
  a final commitment level, is `SuccessIsTrue`: at most one message is missing, and it
  failed on chain. For the upload this is `AtMostOneWriteMissing`; in runs without a failed
  write everything holds on that runtime too (`FailureIsNeeded`,
  `SafeUnlessFailedExactly`, `DeployStoresTheFile`, `UpgradeStoresTheFile`).
* A message that expires is signed and paid for again, so the payer check, which counts
  each message once, covers all runs exactly if there is no second round
  (`CoveredExactly`, `PaidTwice`); `RunCost` bounds what a run can cost.
* The final message of an upload goes only onto a buffer that holds the file exactly under
  the condition of `SafeExactly`. On the tool's own runtime that leaves, of the uploads that
  get that far, those that find the file already there. An upgrade without the buffer's
  key plans no writes at all, so there the file plays no part. And nothing stops writes of
  an earlier attempt with another file from landing late in the same buffer (`HarmDone`,
  `OtherFileInFlight`).
* An upgrade's own extension is sized by the program, the loader's check by the buffer. A
  reused buffer that is longer than the program can pass every check, have its writes paid
  for, and then be refused (`LongBufferFits`, `LongBufferRefused`).
* The payer check lets an uncovered cost through in one saturated case
  (`UncoveredExactly`, `FullBalanceUncovered`).
* The merge of slots and blocks misses confirmed slots of an unsorted list
  (`MissedExactly`, `UnsortedMisses`).
* An explicit amount is overdrawn exactly when the balance is the largest 64-bit number
  and amount plus fee exceed it (`OverdrawnExactly`, `FullBalanceOverdrawn`).
* Path translation comes back exactly under the conditions of `UpstreamRoundTrip` and
  `CleanRoundTrip`; for example `crates/x/y` does not survive from the upstream side
  unless `crates` is itself an indexed crate (`CratesDoNotComeBack`).
* Listing all buffers fails altogether if the reply holds one account that is tagged as a
  buffer and does not decode; asking for an authority never does (`BufferQuery`,
  `OneBrokenAccount`). This is about arbitrary replies: the loader leaves no such account
  behind.
* `--slot-limit n` shows up to n + 1 slots (`WindowIsOrdered`).

## Model

| member | source | states |
|---|---|---|
| `ParallelSend.OnlyGivenMessagesLand` | crates/client/client/src/send_and_confirm_transactions_in_parallel.rs:435-561 | In every run nothing lands but the given messages and writes left over from earlier sessions, and every reported error index is that of a given message, so the final indexing into the error vector cannot fail. |
| `ParallelSend.CoveredMain` | crates/client/client/src/send_and_confirm_transactions_in_parallel.rs:502-548 | No step of the main task loses a message: it has landed, is tracked, is still to be signed, or an error is recorded at its own index; in particular clearing the map of tracked transactions loses nothing although it is collected while the confirmation task removes entries. |
| `ParallelSend.CoveredConfirm` | crates/client/client/src/send_and_confirm_transactions_in_parallel.rs:108-166 | At a final commitment level no step of the confirmation task loses a message: what it stops tracking has landed, or failed on chain and has its error recorded at its own index, or is the one message whose error is about to be. |
| `ParallelSend.FinishSettles` | crates/client/client/src/send_and_confirm_transactions_in_parallel.rs:550-560 | When the sender returns, with errors or without, a message that neither landed nor has an error is the one whose failure was about to be recorded, so there is at most one. |
| `ParallelSend.NoneLostStep` | crates/client/client/src/send_and_confirm_transactions_in_parallel.rs:502-561 | The invariant over whole runs: with at least one signing round and a final commitment level, every message stays accounted for from the first round until the sender returns. |
| `ParallelSend.SuccessIsTrue` | crates/client/client/src/send_and_confirm_transactions_in_parallel.rs:502-561 | On any runtime, with at least one round and a final commitment level, a returned list without errors means that at most one message did not land and that a transaction of it failed on chain; all landed if the confirmation task is not interrupted or no transaction failed. |
| `ParallelSend.ErrorsAreRight` | crates/client/client/src/send_and_confirm_transactions_in_parallel.rs:139-156 | What the returned list says, index by index, in every run with different messages, a round and a final level: an index with an error is that of a message that was judged invalid or failed on chain, every message judged invalid has one, and of the others all landed but at most one, which failed on chain on a multi-threaded runtime. |
| `ParallelSend.ExpiredAreChecked` | crates/client/client/src/send_and_confirm_transactions_in_parallel.rs:121-132 | Whatever happens before a check, it looks up exactly the tracked transactions that have not expired or had not at the height last seen. |
| `ParallelSend.BetweenChecks` | crates/client/client/src/send_and_confirm_transactions_in_parallel.rs:119-163 | Of two checks in a row, with anything in between, the second leaves out a tracked transaction if and only if it had expired already when the first began and still has; so one that expires in between is looked up once more. |
| `ParallelSend.SendFailsExactly` | crates/client/client/src/send_and_confirm_transactions_in_parallel.rs:211-250 | A finished run was abandoned if and only if setting up failed or some attempt to send ended with an error that is neither retried nor recorded, wherever in the run it was. |
| `ParallelSend.GivesUpLast` | crates/client/client/src/send_and_confirm_transactions_in_parallel.rs:502-560 | The sender reports that its retries are exceeded only after every signing round it may use has begun, however the tasks interleave. |
| `ParallelSend.AtMostOneLiveSignature` | crates/client/client/src/send_and_confirm_transactions_in_parallel.rs:333-393 | At a final commitment level, or without a second round, the chain could at no point of any run still accept two signatures of one message: waiting for the block height to pass every tracked transaction's last valid one makes signing again safe. |
| `ParallelSend.OneLiveExactly` | crates/client/client/src/send_and_confirm_transactions_in_parallel.rs:333-393 | For different messages that holds in all runs if and only if there is nothing to send, or no second round, or a final level; otherwise a block height seen in an abandoned block comes too early, and two signatures are acceptable at once. |
| `ParallelSend.LiveTrackedStep` | crates/client/client/src/send_and_confirm_transactions_in_parallel.rs:263-331 | At a final level every signature the chain could still accept is in the map of tracked transactions, over every step of every task. |
| `ParallelSend.SignedPerRound` | crates/client/client/src/send_and_confirm_transactions_in_parallel.rs:502-548 | In every run, on any runtime and at any level, each of pairwise different messages is signed at most as often as there are signing rounds. |
| `ParallelSend.PaidPerRound` | crates/client/client/src/send_and_confirm_transactions_in_parallel.rs:502-548 | So no run executes more transactions than messages times signing rounds. |
| `ParallelSend.PaidOnceExactly` | crates/client/client/src/send_and_confirm_transactions_in_parallel.rs:502-548 | No run executes more transactions than there are messages if and only if there is nothing to send or no second round. |
| `ParallelSend.PaidTwice` | crates/client/client/src/send_and_confirm_transactions_in_parallel.rs:502-548 | With two rounds there is a run in which every message is executed and one of them a second time. |
| `ParallelSend.NoRoundsReportSuccess` | crates/client/client/src/send_and_confirm_transactions_in_parallel.rs:492-560 | With a signing count of zero there is a run that reports success while no message landed. |
| `ParallelSend.RaceReportsSuccess` | crates/client/client/src/send_and_confirm_transactions_in_parallel.rs:139-156 | For any messages and any positive signing count, a multi-threaded sender has a run that reports success although a message failed: the main task finishes between the removal and the recording of the error. |
| `ParallelSend.ForkReportsSuccess` | crates/client/client/src/send_and_confirm_transactions_in_parallel.rs:139-142 | At the lowest commitment level there is, for any messages, runtime and positive signing count, a run that reports success without any failed transaction although a message is missing: its status came from a block that is abandoned. |
| `ParallelSend.TrustworthyExactly` | crates/client/client/src/send_and_confirm_transactions_in_parallel.rs:435-561 | A reported success implies in all runs that all messages landed if and only if there is nothing to send, or there is a signing round, the commitment level is final and the two halves of a failed confirmation are not interrupted. |
| `ParallelSend.FailureIsNeeded` | crates/client/client/src/send_and_confirm_transactions_in_parallel.rs:435-561 | Over the runs in which no transaction fails on chain, a reported success implies that all messages landed, on any runtime, if and only if there is nothing to send, or at least one signing round and a final commitment level. |
| `ParallelSend.FalseSuccess` | crates/client/client/src/send_and_confirm_transactions_in_parallel.rs:435-561 | Outside that condition there is a run that reports success with a message missing and lands nothing but the given messages, whatever else may still be in flight. |
| `ParallelSend.SuccessIsPossible` | crates/client/client/src/send_and_confirm_transactions_in_parallel.rs:435-561 | For every configuration there is a run that reports success, fails nothing and lands only given messages, all of them if there is a signing round; so none of the results about reported success is empty. |
| `ChunkPlan.PlanWrites` | bin/cli/src/program.rs:2602-2609 | The planner's loop yields exactly the writes of the differing chunks in order, and panics exactly on a zero chunk size or a program longer than the buffer it is compared with. |
| `ChunkPlan.PlanHolds` | bin/cli/src/program.rs:2738-2745 | A write is planned if and only if it is the chunk of the program at a multiple of the chunk size, carries that offset, and differs from the buffer there. |
| `ChunkPlan.PlanIncreases` | bin/cli/src/program.rs:2602-2609 | The offsets of the planned writes increase strictly, so no two of them are alike. |
| `ChunkPlan.PlanCovers` | bin/cli/src/program.rs:2866-2873 | Every byte that is still wrong in the buffer is covered by a planned write. |
| `ChunkPlan.NothingPlanned` | bin/cli/src/program.rs:2602-2609 | Nothing is planned if and only if the buffer already starts with the program. |
| `ChunkPlan.LandedBytes` | crates/programs/bpf_loader/src/lib.rs:39-62 | After any log of writes of the program's own bytes, in any order and with repeats, a byte is the program's if some write covered it and unchanged otherwise. |
| `ChunkPlan.AgreedBytes` | crates/programs/bpf_loader/src/lib.rs:39-62 | After any log of writes that are refused or agree with the program where they overlap it, a byte that no accepted write covers is unchanged and a covered program byte is the program's. |
| `ChunkPlan.OrderIndependent` | bin/cli/src/program.rs:3202-3213 | Two logs that land the same set of writes leave the same buffer, whatever their order and repetitions. |
| `ChunkPlan.PlanCompletes` | bin/cli/src/program.rs:2602-2609 | Once all planned writes have landed, among any other writes of the program, the buffer is the program followed by what lay behind it before. |
| `ChunkPlan.ReplanIsRemainder` | bin/cli/src/program.rs:2602-2609 | Planning again with the same chunk size after some planned writes landed plans exactly the writes that did not, in the old order. |
| `ChunkPlan.ResumeConverges` | bin/cli/src/program.rs:1557-1573 | However many attempts crash, with whatever chunk sizes and with late writes of earlier attempts, the first attempt whose plan completes leaves the program, then the bytes that lay behind it at the very start, and nothing to write for any chunk size. |
| `LoaderState.StateRoundTrip` | bin/cli/src/program.rs:1888-1891 | Decoding inverts encoding for every loader account state, whatever bytes follow; this fixes the offsets of tag, slot, option byte and authority. |
| `Loader.WriteLands` | crates/programs/bpf_loader/src/lib.rs:173-201 | On a buffer of the signing authority a write is accepted if and only if it ends inside the account; then it changes exactly its program bytes and the account stays a buffer of that authority. |
| `Loader.WriteAccepted` | crates/programs/bpf_loader/src/lib.rs:173-201 | For any account bytes a write is accepted if and only if the account is a buffer of the signing authority and the write ends inside it. |
| `Loader.ExecuteAllLands` | crates/programs/bpf_loader/src/lib.rs:39-62 | Executing any log of writes on the account, refused ones included, is landing that log in the bytes behind the metadata. |
| `Loader.StoredBits` | crates/programs/bpf_loader/src/lib.rs:202-551 | What deploy and upgrade store behind the program data metadata starts with the program whenever the buffer does, then holds the buffer's other bytes, then zeros up to the account's length. |
| `Loader.DefaultDeployIsExact` | crates/programs/bpf_loader/src/lib.rs:202-367 | A deploy asking for exactly the program's length that succeeds has stored the program file and nothing else. |
| `Loader.DeployAccepted` | crates/programs/bpf_loader/src/lib.rs:202-367 | For any account bytes a deploy is accepted if and only if the account is a buffer of the authority and not empty, the length asked for holds it and fits an account, and the remaining checks pass. |
| `Loader.DefaultDeployGoesThrough` | crates/programs/bpf_loader/src/lib.rs:202-367 | A deploy at the default length of a buffer that holds the program and nothing behind it stores the program unless a remaining check fails. |
| `DeployRun.StartAccount` | bin/cli/src/program.rs:1520-1574 | Whether the buffer was fetched or created by the initial message, the account the writes meet is a writable buffer whose bytes are those the plan was made against, and the program fits. |
| `DeployRun.FetchExactly` | bin/cli/src/program.rs:1520-1574 | No buffer is found exactly where there is no account; one is found exactly if the account is the loader's, is a buffer of the authority and has room for the program, and its bytes are those behind the metadata; anything else is an error. |
| `DeployRun.PastExactly` | bin/cli/src/program.rs:3095-3230 | The final message is sent if and only if the buffer could be fetched and, unless an upgrade lacks the buffer's key: the chunk size is positive, a message that creates or extends was signed with that key, simulated and confirmed, a created buffer is not too large, and where the buffer does not hold the file the first write was simulated and the sender reported success. |
| `DeployRun.AtMostOneWriteMissing` | bin/cli/src/program.rs:3081-3257 | On any runtime, at a final commitment level, every run of the whole upload with at least one signing round that gets past its writes leaves every program byte right outside at most one planned write, and then that write failed on chain; bytes behind the program change only where writes of earlier attempts reach. |
| `DeployRun.PastMeansWritten` | bin/cli/src/program.rs:3081-3257 | If moreover confirmations cannot be overtaken or no write failed on chain, the whole file is in the buffer. |
| `DeployRun.CanPassExactly` | bin/cli/src/program.rs:3081-3257 | The stated condition for getting past the writes holds if and only if some replies of the network take the invocation there. |
| `DeployRun.SomeRunIsWrong` | bin/cli/src/program.rs:3131-3230 | Otherwise there are network replies under which the invocation goes on although the buffer does not hold the file. |
| `DeployRun.AccountAbandoned` | bin/cli/src/program.rs:1527-1530 | At the lowest commitment level every invocation that can pass has a run in which nothing fails and there is no file on chain, even if the file was found: the buffer was seen in a block that is abandoned. |
| `DeployRun.HarmDone` | bin/cli/src/program.rs:1520-1574 | If a write still in flight from an earlier attempt contradicts the file, an invocation that can pass has a run in which nothing fails and the file is not in the buffer. |
| `DeployRun.OtherFileInFlight` | bin/cli/src/program.rs:1520-1574 | A concrete such input: one byte in buffer and file alike, and one write of another byte in flight, with a sender that can be trusted. |
| `DeployRun.SafeExactly` | bin/cli/src/program.rs:3081-3257 | The final message is sent only onto a buffer that holds the file, in all runs, if and only if the invocation cannot get that far, or the commitment level is final, nothing in flight contradicts the file, and either the file was there before or the writes are planned, may be signed at least once, and confirmations cannot be overtaken. |
| `DeployRun.SafeUnlessFailedExactly` | bin/cli/src/program.rs:3081-3257 | Over the runs in which no write fails on chain the same holds, on any runtime, if and only if the invocation cannot get that far, or the level is final, nothing in flight contradicts the file, and the file was there before or the writes are planned with at least one signing round. |
| `DeployRun.DeployStoresTheFile` | bin/cli/src/program.rs:2535-2670 | From file to chain, at a final level, on any runtime unless a write failed on chain: a default-length deploy that gets past its writes and is accepted by the loader has stored exactly the file. |
| `DeployRun.UpgradeStoresTheFile` | bin/cli/src/program.rs:2783-2932 | From file to chain, at a final level, on any runtime unless a write failed on chain: an upgrade with the buffer's key stores the file, then the buffer's original tail except where earlier writes reach, then zeros. |
| `DeployRun.AutoExtendedUpgradeStores` | bin/cli/src/program.rs:2801-2932 | With auto-extension and a buffer of the program's own length, such an upgrade has its extension confirmed before the writes, passes the loader's size checks, and stores the file followed by zeros. |
| `Wire.SizeOfWithData` | bin/cli/src/program.rs:2521-2532 | Exchanging one instruction's data changes the size of the serialised transaction by the change of the data and of its compact length prefix and by nothing else. |
| `Wire.WritesFitPackets` | bin/cli/src/program.rs:2521-2532 | Every write no longer than the computed chunk size fits the packet, and among writes whose length prefix takes two bytes no longer one does, so the one spare byte is exactly what the prefix needs. |
| `Wire.ShortVecRoundTrip` | bin/cli/src/program.rs:2521-2532 | Reading a compact length gives back the length and the number of bytes it took, whatever follows. |
| `Wire.WriteRoundTrip` | bin/cli/src/program.rs:2738-2745 | The data of a write instruction reads back as its offset and its bytes. |
| `Wire.TransactionSize` | bin/cli/src/program.rs:2521-2532 | The size of a serialised transaction, part by part: signatures, keys, header, blockhash, instructions and their length prefixes. |
| `WriteMessages.PlannedWritesFit` | bin/cli/src/program.rs:2738-2745 | Every planned write message fits one packet, as created and as sent after the limit found for the first one is carried over to all, and is sent with its own offset and bytes. |
| `WriteMessages.CarriedIsLimited` | bin/cli/src/program.rs:3138-3160 | For the writes of one upload the assertion in the loop never fires: unless the simulation of the first message fails, the index found in it names the limit of every message, and exactly that is replaced. |
| `ComputeBudget.UnitLimitRoundTrip` | bin/cli/src/compute_budget.rs:82-113 | The instruction data written for a limit parses as that limit, for all 32-bit limits. |
| `ComputeBudget.LimitIndexFrom` | bin/cli/src/compute_budget.rs:21-38 | The found index is that of a unit-limit instruction and no earlier instruction is one; none is found only if there is none. |
| `ComputeBudget.OverwriteKeepsShape` | bin/cli/src/compute_budget.rs:77-113 | Overwriting the limit keeps it the first unit-limit instruction, with the new value, leaves everything else in the message alone, and never lengthens the transaction. |
| `ComputeBudget.SimulationSets` | bin/cli/src/compute_budget.rs:77-113 | A simulation changes nothing but the first unit limit, and only if there is one and the setting asks for it; the limit becomes the simulated count, or that count raised by the extra percentage, rounded down and never below the count unless it exceeds 32 bits; a failed simulation or a count beyond 32 bits is an error. |
| `ComputeBudget.OverwriteAll` | bin/cli/src/program.rs:3138-3160 | The loop over the write messages succeeds if and only if each has a compute-budget instruction at the index, and then replaces exactly that instruction's data in each. |
| `Fee.SameShapeSameFee` | crates/runtime/fee/src/lib.rs:23-65 | Messages that differ only in the data of instructions that neither set the compute budget nor carry signatures cost the same, or are both rejected. |
| `Fee.OverwrittenRequests` | crates/runtime/compute-budget-instruction/src/compute_budget_instruction_details.rs:54-190 | Overwriting the first unit limit changes the requested limit and no other request, and does not turn an accepted message into a duplicate-request error or back. |
| `Fee.LowerLimitCostsNoMore` | crates/runtime/compute-budget/src/compute_budget_limits.rs:56-69 | Replacing the unit limit by one that is no larger never raises the fee and never makes the message unacceptable. |
| `Fee.PrioritizationIsLeast` | crates/runtime/compute-budget/src/compute_budget_limits.rs:61-69 | The fee is the least whole number of lamports that covers price times limit in millionths, capped at 64 bits. |
| `Fee.AcceptedExactly` | crates/runtime/compute-budget-instruction/src/compute_budget_instruction_details.rs:54-190 | A message has a fee if and only if each of its compute-budget instructions can be read, no two ask for the same thing, a heap asked for is a multiple of 1 KiB from 32 to 256 KiB, and a loaded size asked for is not zero. |
| `Fee.RequestsCome` | crates/runtime/compute-budget-instruction/src/compute_budget_instruction_details.rs:54-190 | In an accepted message a value is requested if and only if some compute-budget instruction asks for it. |
| `Fee.SignaturesArePaid` | crates/runtime/fee/src/lib.rs:51-65 | Short of saturation, one more instruction raises the signature fee by the price of the signatures it counts if its program verifies signatures, and by nothing otherwise; without instructions the fee is that of the message's own signatures. |
| `WriteMessages.BuiltLimit` | bin/cli/src/compute_budget.rs:124-147 | In a message built with a price, the limit is found right behind the price and asks for the maximum; without a price there is none to find. |
| `WriteMessages.BuiltCost` | crates/runtime/fee/src/lib.rs:23-65 | A message built with a price and sent with a unit limit costs its signatures plus the price of that limit, which the cluster caps. |
| `WriteMessages.ProductIsSum` | bin/cli/src/program.rs:3059-3065 | The product of the first write's fee and the number of writes is the sum of all their fees. |
| `WriteMessages.EstimateIsExact` | bin/cli/src/program.rs:3046-3078 | Absent saturation, the fee that the payer is checked for is the initial message's plus that sum. |
| `WriteMessages.PayerPassesExactly` | bin/cli/src/program.rs:3046-3078 | For the writes of an upload whose cost fits 64 bits, the payer passes if and only if its balance is not zero and covers the rent and the whole cost. |
| `WriteMessages.UncoveredExactly` | bin/cli/src/program.rs:3046-3078 | The payer check lets an uncovered cost through if and only if the balance is the 64-bit maximum, no rent is due and the cost exceeds 64 bits. |
| `WriteMessages.FullBalanceUncovered` | bin/cli/src/program.rs:3046-3078 | A concrete such case: two writes at the highest price per signature. |
| `WriteMessages.PayerStaysSolvent` | bin/cli/src/program.rs:2692-2758 | Once the payer check of a buffer upload passes, outside that case, the payer can pay the buffer's rent, the initial message and any number of the writes as they are sent, each once with the limit carried over to it. |
| `SendCost.RunCost` | bin/cli/src/program.rs:3202-3213 | In every run of the sender, on any runtime and at any commitment level, the writes of an upload cost at most the product the payer is checked for, once per signing round. |
| `SendCost.CoveredExactly` | bin/cli/src/program.rs:3059-3065 | For different messages of equal positive fee, paying for each once covers all runs if and only if there is nothing to send or no second round. |
| `Spend.ReduceBalance` | bin/cli/src/spend_utils.rs:128-160 | The chain of saturating subtractions leaves a part of the account's lamports, and what it takes away is exactly what must not be touched: nothing, or for `AVAILABLE` from a stake account the locked stake and the rent, or all there is. |
| `Spend.FeeIsForTheSentMessage` | bin/cli/src/spend_utils.rs:201-313 | If the builder changes only amounts, the fee found for the dummy is the fee of the message that is returned, which is the one built for the resolved amount with at most its own unit limit replaced. |
| `Spend.SpendConserved` | bin/cli/src/spend_utils.rs:161-197 | Where the account's own lamports go on success: `ALL` and the like leave exactly what must not be touched, a rent-exempt spend exactly the rent or what the fee leaves of it, an explicit amount is covered unless the balance is the 64-bit maximum; a separate fee payer covers the fee. |
| `Spend.ResolvesExactly` | bin/cli/src/spend_utils.rs:173-196 | Once the dummy could be simulated and priced, a non-explicit amount resolves if and only if one payer has something to spend and the fee besides what must not be touched, or a separate payer has its fee. |
| `Spend.DummyAmount` | bin/cli/src/spend_utils.rs:217-245 | The simulated dummy carries the very amount that is spent in the end, except where one account pays both and the amount has to wait for the fee. |
| `Spend.OverdrawnExactly` | bin/cli/src/spend_utils.rs:173-180 | An explicit amount passes uncovered if and only if the balance is the 64-bit maximum and the true sum exceeds it; below that maximum the check is exact. |
| `Spend.FullBalanceOverdrawn` | bin/cli/src/spend_utils.rs:173-180 | A concrete such case: all of a full balance with a fee on top. |
| `Spend.LockedStakeStays` | bin/cli/src/spend_utils.rs:137-160 | After any successful `AVAILABLE` from a stake account with active or activating stake, fee included, at least the locked stake and the rent stay behind, or all there was. |
| `ExtendProgram.AutoExtendIsLeast` | bin/cli/src/program.rs:2965-2997 | The extension an upgrade adds by itself makes the account long enough, passes the command's and the loader's checks, and is the smallest that does; and the loader's check is the command's together with a positive length that fits an account. |
| `ExtendProgram.AutoExtendFails` | bin/cli/src/program.rs:2946-2975 | An upgrade is refused here if and only if there is an account and it is not program data, or has no authority, or the program is too big for any account. |
| `ExtendProgram.ExtendedUpgradeFits` | bin/cli/src/program.rs:2936-3004 | For every usable buffer, after that extension the loader's size checks of the upgrade pass if and only if the buffer is not empty and its program bytes fit the extended account; a buffer of the program's own length always fits. |
| `ExtendProgram.LongBufferFits` | bin/cli/src/program.rs:1557-1567 | A buffer fits if and only if it has the program's own length, or the account was long enough for it before, or the slack of the minimum extension reaches it. |
| `ExtendProgram.LongBufferRefused` | bin/cli/src/program.rs:2977-2982 | A concrete failing input: a buffer one byte longer than the program and an account that just holds the program get no extension, and the upgrade is refused. |
| `BlockProduction.InvertGrowing` | bin/cli/src/cluster_query.rs:970-978 | The resized list names for every slot the leader written last, `?` for slots of no one, and ends with the last scheduled slot. |
| `BlockProduction.InvertWindow` | bin/cli/src/cluster_query.rs:1324-1334 | The windowed list has one entry per slot of the window and names the same leaders. |
| `BlockProduction.LeaderOfSlot` | bin/cli/src/cluster_query.rs:970-978 | For disjoint slot lists a slot's leader is the one whose list holds it, and no one exactly if none does. |
| `BlockProduction.IterationOrderIrrelevant` | bin/cli/src/cluster_query.rs:1326-1334 | Two iteration orders of one schedule with disjoint lists invert to the same leaders. |
| `BlockProduction.WindowIsOrdered` | bin/cli/src/cluster_query.rs:1233-1308 | For a monotone epoch schedule both paths keep first slot, start and end in order, no subtraction saturates, the slot total is end - start + 1, and a limit of n leaves the smaller of n + 1 and the epoch so far. |
| `BlockProduction.WindowHolds` | bin/cli/src/cluster_query.rs:1233-1298 | A slot is in the window if and only if it belongs to the asked epoch, or else the current one, is not in the future, and lies within the limit of the last such slot; on the slow path, if moreover the ledger has it. There is no window exactly for a future epoch. |
| `BlockProduction.ConfirmedFromHistory` | bin/cli/src/cluster_query.rs:1264-1271 | The fast path yields exactly the found slots of the window, strictly increasing, which is what the merge needs. |
| `BlockProduction.NoMoreBlocksThanSlots` | bin/cli/src/cluster_query.rs:1309-1310 | A strictly increasing list inside the window is never longer than the window, so the assertion holds. |
| `BlockProduction.MergeSlots` | bin/cli/src/cluster_query.rs:1341-1373 | For any list of confirmed slots in any order, the two-index merge marks a slot skipped if and only if it is not a record of the list, larger than all before it, and both counters hold for each leader its slots and its skipped slots. |
| `BlockProduction.MissedExactly` | bin/cli/src/cluster_query.rs:1349-1372 | A confirmed slot is missed if and only if a larger one precedes it wherever it occurs; in a sorted list none is. |
| `BlockProduction.UnsortedMisses` | bin/cli/src/cluster_query.rs:1349-1372 | A concrete such case: behind slot 5, slot 3 is missed. |
| `BlockProduction.ReportAddsUp` | bin/cli/src/cluster_query.rs:1377-1389 | The slot counts sum to the window, the skips to the window less the blocks, and each leader's produced count is the number of confirmed slots it leads. |
| `BlockProduction.ShowBlockProduction` | bin/cli/src/cluster_query.rs:1233-1389 | The whole report, from epoch and limit to the leaders: its window is exactly the set of slots asked for, on the slow path those of them that the ledger has; it exists exactly outside the three error cases, and takes the fast path exactly if the history covers all the slots; every slot has one line with the leader its epoch-relative index names, skipped exactly if the merge sees no block; and on the fast path, or for any increasing list of the window, all totals and each leader's produced count are right. |
| `StakeTotals.GroupStakes` | bin/cli/src/cluster_query.rs:1893-1939 | A grouping has exactly the keys that occur, each with the number and stake of its own current and delinquent validators; no addition saturates while the totals fit 64 bits. |
| `StakeTotals.GroupsAddUp` | bin/cli/src/cluster_query.rs:1838-1850 | Every grouping, by version or by client, sums to the directly computed current and delinquent stake and counts every validator once. |
| `AccountFilters.StakePushdown` | bin/cli/src/cluster_query.rs:1676-1771 | For any account bytes, the byte-offset filters followed by the client's match select it if and only if decoding it and testing voter and withdrawer would. |
| `AccountFilters.StakeRoundTrip` | bin/cli/src/cluster_query.rs:1677-1695 | Decoding inverts encoding for every stake account, whatever padding follows; this fixes the offsets the filters rely on. |
| `AccountFilters.SliceDecodes` | bin/cli/src/program.rs:1913-1918 | The requested slices are long enough: an account with the filtered tag decodes from its slice exactly as from all its data. |
| `AccountFilters.LoaderPushdown` | bin/cli/src/program.rs:1893-1969 | For any account bytes, filters, slice and decoding together accept a buffer or program data account if and only if it decodes as one with the authority asked for, and with an authority nothing that passes fails to decode. |
| `AccountFilters.ListBuffers` | bin/cli/src/program.rs:1920-1939 | The loop over the reply lists every account in order or fails at the first that is no buffer. |
| `AccountFilters.BufferQuery` | bin/cli/src/program.rs:1893-1944 | Over all accounts, the query fails if and only if no authority is asked for and some account tagged as a buffer does not decode; otherwise it lists precisely the wanted buffers in order. |
| `AccountFilters.OneBrokenAccount` | bin/cli/src/program.rs:1920-1939 | A concrete failing reply: one account of nothing but the tag. |
| `FeatureGate.CollectVotes` | bin/cli/src/feature.rs:706-725 | The vote map holds for each node its last vote account's stake, and the total is all current and delinquent stake. |
| `FeatureGate.CollectStats` | bin/cli/src/feature.rs:727-746 | Each reported configuration gets the stake and the RPC count of exactly its own nodes; no addition saturates. |
| `FeatureGate.AggregateByFeatureSet` | bin/cli/src/feature.rs:651-665 | The loop over the map, in any order, gives each feature set the stake and the RPC nodes of its configurations and lists each of its software versions once, the latest first; there are no other groups. |
| `FeatureGate.AggregateBySoftwareVersion` | bin/cli/src/feature.rs:667-677 | The same for software versions, without the list. |
| `FeatureGate.AggregationsAgree` | bin/cli/src/feature.rs:650-678 | The aggregations by feature set and by software version have the same stake and RPC totals. |
| `FeatureGate.ShareIsReal` | bin/cli/src/feature.rs:712-746 | The stake counted for any selection of distinct nodes never exceeds the real stake of their votes, although several votes of a node overwrite each other. |
| `FeatureGate.BucketIsReal` | bin/cli/src/feature.rs:748-775 | After small entries are dropped, no feature set's bucket exceeds the real stake of the nodes that report it. |
| `FeatureGate.KeptIsPercent` | bin/cli/src/feature.rs:759-761 | An entry is kept if and only if it has at least 0.001 percent of the stake or of the RPC nodes, compared as fractions. |
| `FeatureGate.LittleIsDropped` | bin/cli/src/feature.rs:748-775 | What is dropped of a feature set is, in stake and in RPC nodes, at most a thousandth of a percent of the total for each of its configurations. |
| `FeatureGate.TwoFeatureSets` | bin/cli/src/feature.rs:727-746 | The real stakes behind two different feature sets never exceed the total together. |
| `FeatureGate.GateIsSound` | bin/cli/src/feature.rs:790-805 | An open gate means that at least 95% of the real active stake reports the tool's feature set; buckets never exceed the total, and the gate is open for at most one feature set. |
| `FeatureGate.GateOpensExactly` | bin/cli/src/feature.rs:790-805 | The gate, read off the aggregated entries, opens if and only if the kept share computed straight from nodes and votes is at least 95 percent of both totals. |
| `FeatureGate.ActivationAllowed` | bin/cli/src/feature.rs:706-805 | From the cluster's replies to the decision: activation is allowed if and only if the configurations kept for the tool's feature set have at least 95 percent of the active stake and of the RPC nodes, and then at least 95% of the real active stake reports that feature set; and it is allowed whenever the stake counted for the feature set's nodes and their RPC nodes reach 95% plus a thousandth of a percent for each configuration of the feature set. |
| `StakeAuthorize.ParseAuthorizations` | bin/cli/src/stake.rs:935-990 | The parsed list holds exactly the changes asked for, the staker's before the withdrawer's, each signed by the authority the options name. |
| `StakeAuthorize.StaticChecksDecide` | bin/cli/src/stake.rs:1584-1636 | For every such list the checks against the initial authorities pass if and only if applying the changes one after another finds a permitted authority each time; then the account ends up with exactly the authorities asked for, and keeps a role no change names. |
| `StakeAuthorize.OppositeOrderFails` | bin/cli/src/stake.rs:1603-1611 | In the opposite order statically allowed changes go through if and only if the staker's signer is the staker or the new withdrawer. |
| `PathMap.NormalizeCleans` | scripts/dev/path_map.py:23-24 | A normalised path is empty, or has no backslash and no slash at either end. |
| `PathMap.PlaceSegments` | scripts/dev/path_map.py:40-54 | The string operations towards the cleaned layout are a replacement of leading path segments. |
| `PathMap.UnmoveSegments` | scripts/dev/path_map.py:57-75 | The string operations towards upstream are a replacement of leading path segments. |
| `PathMap.CrateIndex` | scripts/dev/path_map.py:27-37 | The nested loops map each crate outside `programs` to its directory in the last domain that has it, and nothing else. |
| `PathMap.IndexIsGood` | scripts/dev/path_map.py:27-37 | Over plain directory names every entry of that index has the form the round trips need. |
| `PathMap.UpstreamRoundTrip` | scripts/dev/path_map.py:40-54 | For every path, translating from upstream and back gives the normalised path if and only if it is not empty, its first segment is not removed, and it is translated or not something the cleaned layout would move. |
| `PathMap.CleanRoundTrip` | scripts/dev/path_map.py:57-75 | For every path, translating from the cleaned layout and back gives the normalised path if and only if it lies under `bin` or `crates/programs`, or in a crate that the index maps back to this very directory under an unreserved name, or upstream leaves it alone. |
| `PathMap.RoundTrips` | scripts/dev/path_map.py:8-16 | Both conditions hold for the repository's own directory names and the index built from its directories. |
| `PathMap.PlacedBelow` | scripts/dev/path_map.py:40-54 | Where every path below a directory goes: marked as removed, into the applications, into the programs, into the crate's indexed directory, and otherwise unchanged. |
| `PathMap.AppsAndPrograms` | scripts/dev/path_map.py:46-49 | In the repository's own names: `apps/x` goes to `bin/x` and `programs/x` to `crates/programs/x`. |
| `PathMap.RemovedDirectories` | scripts/dev/path_map.py:44-45 | Paths below `examples`, `ci`, `infra` and `.buildkite` are marked as removed. |
| `PathMap.UnmovedBelowBin` | scripts/dev/path_map.py:63-64 | Every path below the directory of the applications goes back below its upstream directory. |
| `PathMap.UnmovedBelowCrates` | scripts/dev/path_map.py:67-74 | Every path below a domain goes back without the domain, except that programs keep theirs. |
| `PathMap.BackToApps` | scripts/dev/path_map.py:57-75 | The same in the repository's own names. |
| `PathMap.CratesDoNotComeBack` | scripts/dev/path_map.py:57-75 | A concrete path that does not come back: `crates/x/y` with an empty index. |

## Left out

- RPC, TPU and pubsub calls, retries, sleeping and progress output; their results are parameters or steps.
- The UDP branch of `send_deploy_messages` and the staggered pacing of sends; re-sending an already signed transaction changes nothing in the sender's state and is not a step of its own.
- Which transaction error a failure carries; errors are kept as the set of indices that have one.
- A deploy or upgrade from an existing buffer without a program file; the model's uploads have a file.
- `write_signer` being absent in `send_deploy_messages`: all its callers pass one.
- Sign-only and dump modes, offline blockhash queries, and argument parsing apart from the authorisation list.
- ELF verification, rent, slot and account checks of the loader; a deploy or upgrade takes their joint outcome as a parameter.
- The loader's and stake program's account layouts, the compute-budget instruction format and message compilation live in other crates; they are modelled as known formats. Stake amounts of an account and the number of units a message gets by default are parameters.
- The authority rules by which the stake program applies a change are not part of the repository; the model takes the same permitted authorities at each turn.
- The leader schedule being unavailable, and the sorting of leaders for output.
- Epoch schedule and slot history, taken as a monotone schedule and a predicate on slots.
- `get_programs`'s second query per program, closing, dumping, setting authorities, and the output types.
- Ordering of feature lists, `get_slot_while_retrying` and `get_epoch_boundary_timestamps`, which would only add easy members.
- Whether a run of the sender terminates; the properties are about every finite run.
- ParallelSend.AtMostOneLiveSignature: is stated for pairwise different messages, which the writes of a plan are; equal messages share their signatures.
- ParallelSend.ErrorsAreRight: is stated for pairwise different messages too; of equal messages one transaction stands for all.
- WriteMessages.PayerPassesExactly: covers an upload without a final message and a cost that fits 64 bits; what saturation lets through is stated by WriteMessages.UncoveredExactly.
- Votes and forks of the cluster: a block that a supermajority has voted for (`confirmed`, `finalized`) is taken to stay, one that is only `processed` may be abandoned at any time.
- WriteMessages.PayerStaysSolvent: covers the upload of a buffer without a final message, with each message paid for once; what messages signed again add is stated by SendCost.RunCost and SendCost.CoveredExactly, and the rents a deploy or an extension adds are outside what the payer check computes.
- StakeTotals.GroupStakes: is stated for totals that fit 64 bits, beyond which the direct totals are not defined either; the two groupings, which one loop fills side by side, are modelled as two calls.
- FeatureGate.GateIsSound: computes with exact fractions where the source divides floating-point numbers, and is stated for gossip nodes that are listed once.
