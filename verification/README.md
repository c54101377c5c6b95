# Starknet validator attestation: verified model

A Dafny 4.11 model of a tool that attests blocks for a Starknet validator (SNIP 28), with proofs about every
run of it. `dafny verify dfyconfig.toml` checks the whole project.

## What is modelled

**The attestation state machine and its main loop.** Once per epoch a validator is assigned a block b of the epoch.
Eleven blocks later, and before the attestation window of w blocks ends, it must send a transaction that carries the
hash of b. The tool follows block headers, confirmation events and reorg notices, and asks a node that may fail,
lag or contradict itself.

- `States.dfy` is the step function: the four phases, the node's answers, and for each input an `Effect`, that is,
  the outcome, the calls made, and the counters incremented. `Runs.dfy` is the world of the main loop (state, reorg
  queue, call log, increments, whether the process panicked), the fold over inputs, and `Run`, the record of a run.
- `Transitions.dfy` says, for every step of every run, what each input does in each phase, in block numbers and the
  node's answers.
- `Monitor.dfy` is the imperative program: the client, the metrics registry, the handlers, and the loop with its
  rollback and its reorg queue. Every handler is proved to compute the step function; `Monitor.Loop` is proved to
  compute the fold.
- A run fixes nothing about the answers: every theorem holds for all interleavings and all answers, except for the
  hypotheses it names. A *session* is the stretch between two adoptions of an attestation info
  (`Run.SameSession`).
- Arithmetic on `u64` wraps, as in the release build that the Dockerfile ships (Dockerfile:12). `Sane` infos (window
  shorter than the epoch, block numbers representable) are those on which nothing wraps.
  An info whose window equals its epoch length makes the program panic; the model halts.
- An `attest` call can return a transaction hash while the system clock reads before 1970. The program then treats
  the call as failed and forgets the transaction (src/state.rs:366-370). The model keeps this case.

**What a signature commits to.** `Calls.dfy` is the encoding of account calls with a decoder that inverts it,
`Bytes.dfy` and `TransactionHashes.dfy` are the version 3 transaction hash as the example signer computes it, with its
32-byte resource buffers, and `Commitments.dfy` says what equal hashes imply. Poseidon is a free constructor there:
equal hashes have equal inputs. For block assignment it is an arbitrary function into the field.

## Where the program and its documentation differ

The model follows the program.

- The missed-epochs counter is documented as epochs with no successful attestation (the repository's README.md:117).
  It counts windows that closed on a started attestation without the node saying that the epoch is attested, node
  errors included (`Outcomes.MissedCountIsClosedWindows`). An unattested epoch is not counted when its assigned block
  was never reached (`MissedEpochs.UnreachedIsNotMissed`) or when a reorg came between that block and the end of the
  window (`MissedEpochs.ReorgHidesClose`), and is counted twice when a reorg came after the window
  (`MissedEpochs.ReorgCountsTwice`). An attested epoch is counted when the node fails to answer after the window
  (`MissedEpochs.AttestedYetMissed`). Whatever the node answers or fails to answer, as long as it never calls an epoch
  attested that does not end up so, the documented meaning holds for an epoch exactly if it is attested and had no such
  closed window, or is not and exactly one of its sessions saw the window close (`MissedEpochs.MissedExactly`); the
  whole counter is the sum of these (`MissedEpochs.MissedTotal`).
- The failure counter is documented as submission failures (the repository's README.md:114). It also counts every
  report of a reverted transaction, again on each retry of a rolled-back step (`Accounting.SendingCounters`,
  `CounterMeanings.RevertCountedTwice`), so the documented meaning holds exactly while no revert has been reported
  (`CounterMeanings.FailuresExactly`).
- The submitted counter is documented as attestations submitted (the repository's README.md:113). A submission that
  returned a hash while the clock read before 1970 is not counted (`CounterMeanings.SentYetNotSubmitted`); the
  documented meaning holds exactly when there was none (`CounterMeanings.SubmittedExactly`).
- The confirmed counter is documented as submitted attestations confirmed by the network (the repository's
  README.md:115). A confirmation event for the validator's epoch that comes in while a transaction is live counts too,
  whoever's attestation it announces, even after the only submission was reported reverted
  (`CounterMeanings.ConfirmedThoughReverted`); the counter is the number of transactions reported as successful exactly
  when there was no such event (`CounterMeanings.ConfirmedExactly`).

## Model

| member | source | states |
|---|---|---|
| AttestationInfos.AssignedBlockPlacement | src/attestation_info.rs:16-32 | on sane infos b lies in [start, end - w), the window ends before the epoch does, and no addition wraps |
| AttestationInfos.AssignedBlockFormula | src/attestation_info.rs:16-32 | on sane infos b is the epoch start plus the hash of stake, epoch and staker, in that order, modulo epoch length minus window |
| AttestationInfos.AssignedBlockWraps | src/attestation_info.rs:23-31 | with a window longer than the epoch the modulus is the wrapped difference, and the sum wraps |
| AttestationInfos.PlacementNeedsShortWindow | src/attestation_info.rs:23-31 | every hash value places b inside the epoch with room for its window if and only if w is shorter than the epoch |
| Monitors.SubmitAttestation | src/state.rs:346-382 | the sending handler, with its counters and its clock failure, computes `Submit` |
| Monitors.CheckAndSubmitAttestation | src/state.rs:306-344 | the done-check before sending, its error path included |
| Monitors.CheckAndMarkEpochAsMissed | src/state.rs:384-412 | the done-check of a closed window; an error counts as missed |
| Monitors.HandleHeaderWhileSubmitted | src/state.rs:219-299 | the status check of a live transaction |
| Monitors.HandleNewBlockHeader | src/state.rs:100-304 | the whole header handler computes outcome, calls and increments of `OnHeader` |
| Monitors.HandleNewEvent | src/state.rs:414-503 | the event handler computes `OnEvent` |
| Monitors.Monitor.Step | src/main.rs:323-383 | one turn of the loop, with rollback, computes `Next` |
| Monitors.Monitor.Reinitialise | src/main.rs:355-383 | a reorg notice rebuilds the state or goes back to the end of the queue |
| Monitors.Monitor.Loop | src/main.rs:297-385 | the loop computes the fold over the inputs it takes; only a panic stops it |
| Runs.EveryInputSequenceRuns | src/main.rs:297-385 | every input sequence has a run, so the run theorems below are about all of them |
| Runs.RunIsFold | src/main.rs:297-385 | the worlds of a run are the folds that `Loop` computes |
| Reachability.ReachableCoherent | src/state.rs:59-76 | every reachable state stores exactly the block and window its own info prescribes |
| Reachability.ReachableWindow | src/state.rs:151-193 | with a sane info that window is [b + 11, b + w), unwrapped, and closes before the epoch ends |
| Reachability.HaltsExactly | src/attestation_info.rs:23-29 | the process dies if and only if the node once answers with a window as long as the epoch |
| Transitions.BeforeTheBlock | src/state.rs:151-193 | in any run, a header before b changes nothing, that of b starts the attestation with its hash and the window [b + 11, b + w), a later one fetches the hash of b or fails |
| Transitions.WhileAttesting | src/state.rs:194-218 | while attesting, no call before b + 11, the question and the `attest` call from b + 11 to b + w - 1, the end from there on, for every answer |
| Transitions.WhileSubmitted | src/state.rs:219-299 | while a transaction is live and the window open, each status the node can report, named one by one, keeps, confirms or replaces it |
| Transitions.WhileWaiting | src/state.rs:300-303 | while waiting, headers of the epoch change nothing |
| Transitions.OutsideTheEpoch | src/state.rs:93-149 | exactly the headers outside [start, E) ask for the info of the configured address, and the answer decides between failure, death and a new session |
| Transitions.OnAnEvent | src/state.rs:414-503 | an event counts if and only if staker and epoch match, and what it then does in each phase |
| Transitions.OnAReorg | src/main.rs:355-383 | a taken notice asks for the current info and starts over, or changes nothing |
| Attestations.WindowSafety | src/state.rs:194-287 | any `attest` call is made in the epoch, before b + w, in phase Attesting not before b + 11, carries the recorded hash and the info's address, and directly follows a "not done" answer for the same staker |
| Attestations.NeverEarly | src/state.rs:223-273 | if the session's headers up to a send do not decrease, that send waits for b + 11, resubmissions included |
| Attestations.ShortWindowNeverSends | src/state.rs:26-36 | with a window of at most eleven blocks nothing is ever sent |
| Attestations.LiveTransactionWasSent | src/state.rs:306-344 | a live transaction was sent in its own session under the same info, by the last `attest` call made |
| Sessions.SessionKeeps | src/state.rs:151-303 | within a session the info is fixed, a started attestation stays started, waiting is final |
| Sessions.BackwardEdgeExactly | src/state.rs:250-273 | the phase goes back if and only if a revert was reported, the epoch was not done, and the new send failed |
| Sessions.PhaseOrder | src/state.rs:151-344 | over any stretch of a session without such an edge the phase only moves forward |
| Sessions.DecidedBeforeEpochEnds | src/state.rs:194-218 | once a header at or above b was handled, a later one in [b + w, E) cannot fail and ends the session; such blocks exist |
| Sessions.FirstAttestationIsPunctual | src/state.rs:151-211 | when headers follow one another without error, with foreign events and notices in between and whether the first opens the session or not, the first attestation is made at exactly block b + 11 |
| Transactions.AtMostOneLive | src/state.rs:250-273 | between two `attest` calls of a session the first transaction was reported reverted (sound clock) |
| Transactions.OneLiveExactlyUnderSoundClock | src/state.rs:366-370 | between successive hashes of a session that report exists if and only if the clock was sound |
| Transactions.ClockFailureForgets | src/state.rs:362-374 | a concrete run in which a clock before 1970 leaves two transactions out |
| Transactions.SubmissionBound | src/state.rs:202-211 | while its own headers increase, a session makes at most max(0, w - 11) `attest` calls, whatever fails or is rolled back |
| Transactions.BackwardEdgesCostSends | src/state.rs:250-273 | over any stretch, each way back from submitted to attesting costs two `attest` calls, whose first may precede the stretch |
| Transactions.BackwardEdgeBound | src/state.rs:202-273 | while its own headers increase, a session goes back at most (w - 11) / 2 times |
| Transactions.BoundsAreReached | src/state.rs:202-273 | for every sane info with w > 11 a run of one session with increasing headers makes exactly w - 11 `attest` calls and goes back (w - 11) / 2 times |
| Transactions.RollbackLosesNothing | src/main.rs:329-340 | a failed step sent nothing, keeps the live transaction, and moved no counter but the failure count, and that by one exactly for a revert |
| Accounting.SendingCounters | src/state.rs:362-381 | over every run the submitted and failure counts equal what the call log shows |
| Conservation.TransactionConservation | src/state.rs:219-299 | submitted = confirmed + seen reverted + expired + dropped at epoch change + dropped at reorg + live, and confirmed = the live transactions that met a confirmation |
| Conservation.OneFatePerTransaction | src/state.rs:219-302 | between two fates lies the send of the second transaction, at the earliest in the step that saw the first reverted: no transaction is confirmed twice or meets two fates |
| Conservation.OneOutcomePerSession | src/state.rs:278-302 | over any stretch of a session confirmed and missed together grow by at most one, and not after waiting began |
| Conservation.OutcomesAreSessions | src/state.rs:384-412 | confirmed + missed + (1 if undecided) is at most the number of adopted infos |
| Outcomes.SessionEndsExactly | src/state.rs:194-302 | the four reasons, and only they, end a started attestation, and nothing ends one that has not started |
| Outcomes.MissedCountIsClosedWindows | src/state.rs:384-412 | the missed count is the number of closed windows that the node did not call attested |
| MissedEpochs.MissedExactly | src/state.rs:384-412 | over any stretch of a run, reorgs and other epochs in between included, and for any answers that never call an unattested epoch attested: an unattested epoch is counted once for each of its sessions that saw the window close, hence rightly if and only if that was exactly one; an attested one rightly if and only if no window closed without the node saying "attested" |
| MissedEpochs.MissedTotal | src/state.rs:384-412 | the missed count of a whole run is the sessions of unattested epochs that saw their window close plus the windows of attested epochs that closed without the node saying so |
| MissedEpochs.ReorgCountsTwice | src/main.rs:355-375 | a run with truthful answers in which a reorg makes one unattested epoch count twice |
| MissedEpochs.ReorgHidesClose | src/main.rs:355-375 | a run with truthful answers in which a reorg keeps an unattested epoch from being counted, though headers at b and past the window were handled |
| MissedEpochs.UnreachedIsNotMissed | src/state.rs:112-149 | a run in which an epoch nobody attested is not counted |
| MissedEpochs.AttestedYetMissed | src/state.rs:384-412 | a run in which an attested epoch is counted as missed |
| CounterMeanings.SubmittedExactly | src/state.rs:362-374 | the submitted count is the number of hashes returned if and only if the clock was sound at each |
| CounterMeanings.SentYetNotSubmitted | src/state.rs:362-374 | a run in which a transaction went out and none is counted as submitted |
| CounterMeanings.FailuresExactly | src/state.rs:250-256 | the failure count is the number of failed submissions if and only if no revert was reported |
| CounterMeanings.RevertCountedTwice | src/state.rs:250-273 | a run in which one transaction that reverted once counts as two failures |
| CounterMeanings.ConfirmedExactly | src/state.rs:274-500 | the confirmed count is the success reports plus the matching events that came while a transaction was live, hence the success reports if and only if there was none |
| CounterMeanings.ConfirmedThoughReverted | src/state.rs:460-487 | a run in which the only submission is reported reverted and yet counts as confirmed |
| Outcomes.StepFailsExactly | src/state.rs:112-191 | a step is rolled back if and only if its last call failed and that failure is not one the handler absorbs |
| Hashes.HashIsFresh | src/state.rs:162-192 | a held hash was read as the hash of b, from its header or from the node, since the last adopted re-initialisation |
| Hashes.AttestedHashIsCurrent | src/main.rs:355-375 | on a changing chain that stood still since the session began, the attested hash is the current one of b |
| Convergence.GapsConverge | src/state.rs:155-192 | runs that saw different headers of a session agree in state, calls and counters on every common continuation |
| Convergence.RestartConverges | src/main.rs:258-286 | a process started anew on the info of a session does, from b + 11 on, what the process did that followed the session all along |
| Convergence.SessionsBeginOnTrack | src/state.rs:112-149 | a reorg, or the opening header of a session, puts a run on the track that the theorem above follows |
| Epochs.EpochCacheCoherent | src/state.rs:93-149 | if the infos adopted so far are the schedule's, after a header handled without error the cached info is the schedule's entry for that block |
| Epochs.RegularEpochsPartition | src/state.rs:93-98 | schedules as that theorem assumes exist |
| Events.ForeignEventsDoNotMatter | src/state.rs:414-503 | deleting from any run all events of stakers it never watches changes nothing |
| Events.ObservedCountIsMatchingEvents | src/state.rs:429-500 | the observed count is the number of events that matched the staker and epoch held when processed |
| Reorgs.NoReorgIsLost | src/main.rs:355-383 | as often as a reorg notice arrived, the state was re-initialised for it, or the process died of the answer, or it still waits |
| Reorgs.FirstInFirstOut | src/main.rs:355-383 | notices are taken in the order in which they joined, and one whose re-initialisation failed joins again behind all others |
| Calls.EncodeCalls | src/jsonrpc.rs:352-364 | the encoding loop computes `Encoding` |
| Calls.DecodeEncoding | src/jsonrpc.rs:352-364 | a length-driven decoder recovers every list of calls and consumes exactly its encoding |
| Calls.EncodingDecoded | src/jsonrpc.rs:352-364 | whatever decodes is the encoding of what it decodes to |
| Calls.EncodingInjective | src/jsonrpc.rs:352-364 | different lists of calls have different encodings |
| Calls.EncodingLength | src/jsonrpc.rs:352-364 | one element, and three plus the calldata for every call |
| Calls.EncodingLayout | src/jsonrpc.rs:352-364 | the number of calls comes first, and each call lies behind the earlier ones as target, selector, number of arguments, arguments |
| TransactionHashes.BufferDenotes | examples/signer.rs:120-152 | a filled buffer denotes name * 2^192 + amount * 2^128 + price, without reduction by the prime |
| TransactionHashes.PackedFits | examples/signer.rs:120-152 | that number is below 2^248 |
| TransactionHashes.PackedInjective | examples/signer.rs:120-152 | amount and price are recoverable and the three resources never collide |
| TransactionHashes.PackBounds | examples/signer.rs:120-128 | byte copies into the buffer compute the packed bounds |
| TransactionHashes.ComputeFeeHash | examples/signer.rs:115-155 | the nested hasher computes the fee term |
| TransactionHashes.ComputeTransactionHash | examples/signer.rs:104-170 | the hasher computes `TransactionHash` |
| TransactionHashes.HashLayout | examples/signer.rs:104-170 | the ten terms of the hash, position by position, the four of the fee hash included |
| TransactionHashes.Names | examples/signer.rs:115-155 | prefix and resource names are the numbers that "invoke", "L1_GAS", "L2_GAS" and "L1_DATA" denote |
| TransactionHashes.SignerConstants | examples/signer.rs:88-101 | the two raw constants of the signer are the Montgomery forms of the prefix and of 2^128 + 3 |
| Commitments.HashCommits | examples/signer.rs:104-170 | equal hashes if and only if all fields but signature and data-availability modes are equal |
| Commitments.RequestCommitsToExecution | src/jsonrpc.rs:383-416 | equal hashes of requests if and only if same account, chain, calls, nonce, bounds, tip and query flag |
| Commitments.RequestLayout | src/jsonrpc.rs:383-416 | where each part of an execution lies in what is signed for it, down to the packed gas bounds, and that the calldata decodes to its calls |
| Commitments.AttestationCommitsToBlockHash | src/jsonrpc.rs:114-119 | attestations of different block hashes, by whatever accounts, have different transaction hashes |
| Commitments.AttestationLayout | src/jsonrpc.rs:114-119 | the calldata signed for an attestation is 1, contract, selector, 1, block hash |

## Left out

- Transport, subscriptions, task restarts, delays and signals: only the answers and notices they deliver are inputs.
- The retry loop that fetches the first attestation info (src/main.rs:258-275): a run starts with the info it got.
- Channel capacity: the reorg queue is unbounded, and putting a notice back never blocks.
- Gauges, log messages, the balance query and the metrics exporter: they do not influence transitions.
- Counter width: counters are natural numbers.
- Poseidon's internals and ECDSA: an arbitrary function for block assignment, a free constructor for commitments; collisions are not modelled.
- Debug builds, whose arithmetic panics where the release build wraps.
- The tip calculation (src/tip.rs), command-line options and contract addresses.
- Error payloads: the program only logs them.
- Reachability.HaltsExactly: the reported condition is on the node's answers; the program's start-up panic on its first info is outside a run.
