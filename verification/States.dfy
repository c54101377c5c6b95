/** The four-phase attestation state, the node's answers, and what one input does to a state. */
module States {
  import opened Primitives
  import opened AttestationInfos

  /** Position of a block number relative to the attestation window. */
  datatype Position = Before | Inside | After

  datatype AttestationParams = AttestationParams(blockHash: Felt, windowStart: U64, windowEnd: U64) {
    function InWindow(n: U64): Position {
      if n < windowStart then Before else if n >= windowEnd then After else Inside
    }
  }

  datatype State =
    | BeforeBlockToAttest(info: AttestationInfo, blockToAttest: U64)
    | Attesting(info: AttestationInfo, params: AttestationParams)
    | AttestationSubmitted(info: AttestationInfo, params: AttestationParams, transactionHash: Felt)
    | WaitingForNextEpoch(info: AttestationInfo)
  {
    /** The block to attest has been reached and the attestation is not decided: the state holds its hash. */
    predicate Started() {
      Attesting? || AttestationSubmitted?
    }
  }

  function FromAttestationInfo(env: Env, info: AttestationInfo): State
    requires info.Assignable()
  {
    BeforeBlockToAttest(info, AssignedBlock(env, info))
  }

  /** Parameters of the attestation of block `block`. */
  function ParamsFor(info: AttestationInfo, block: U64, blockHash: Felt): AttestationParams {
    AttestationParams(blockHash, WrappingAdd(block, MIN_ATTESTATION_WINDOW), WrappingAdd(block, info.window))
  }

  datatype Execution = Succeeded | Reverted

  datatype TransactionStatus =
    | Received
    | Candidate
    | PreConfirmed(execution: Execution)
    | AcceptedOnL2(execution: Execution)
    | AcceptedOnL1(execution: Execution)
  {
    predicate Accepted() {
      AcceptedOnL2? || AcceptedOnL1?
    }

    predicate AcceptedReverted() {
      Accepted() && execution == Reverted
    }

    predicate AcceptedSucceeded() {
      Accepted() && execution == Succeeded
    }
  }

  /** The answer to an `attest` call: a transaction hash, or an error, which need not mean that nothing went out.
      `clockOk` is false when the system clock reads before 1970: the program then treats a call that returned a
      hash as failed. */
  datatype Sending = Sent(transactionHash: Felt, clockOk: bool) | Failed

  /** The node's answers while one header is handled. No step asks any of them twice. */
  datatype Answers = Answers(
    info: Result<AttestationInfo>,
    blockHash: Result<Felt>,
    done: Result<bool>,
    attest: Sending,
    status: Result<TransactionStatus>)

  /** A call to the node, with the answer it got. */
  datatype Call =
    | GetAttestationInfo(operational: Felt, info: Result<AttestationInfo>)
    | GetBlockHash(block: U64, hash: Result<Felt>)
    | AttestationDone(staker: Felt, done: Result<bool>)
    | Attest(sender: Felt, blockHash: Felt, sending: Sending)
    | AttestationStatus(transactionHash: Felt, status: Result<TransactionStatus>)

  /** The exported counters. */
  datatype Counter = SubmittedCount | FailureCount | ConfirmedCount | ObservedCount | MissedCount

  /** `Kept`: the step failed and the caller keeps the state it had. `Panicked`: the process is gone. */
  datatype Outcome = Done(state: State) | Kept | Panicked

  /** `ticks` lists the counters that were incremented, in order. */
  datatype Effect = Effect(outcome: Outcome, calls: seq<Call>, ticks: seq<Counter>) {
    /** This effect preceded by some calls and increments. */
    function After(callsBefore: seq<Call>, ticksBefore: seq<Counter>): Effect {
      Effect(outcome, callsBefore + calls, ticksBefore + ticks)
    }
  }

  /** Doing the earlier calls and increments, then the effect, is doing `After`. */
  lemma AfterFollows(log: seq<Call>, ticks: seq<Counter>, e: Effect, callsBefore: seq<Call>, ticksBefore: seq<Counter>)
    ensures var all := e.After(callsBefore, ticksBefore);
            && all.outcome == e.outcome
            && log + all.calls == log + callsBefore + e.calls
            && ticks + all.ticks == ticks + ticksBefore + e.ticks
  {
  }

  function Submit(info: AttestationInfo, params: AttestationParams, a: Answers): Effect {
    var calls := [Attest(info.operational, params.blockHash, a.attest)];
    match a.attest
    case Sent(tx, true) => Effect(Done(AttestationSubmitted(info, params, tx)), calls, [SubmittedCount])
    case Sent(_, false) => Effect(Done(Attesting(info, params)), calls, [])
    case Failed => Effect(Done(Attesting(info, params)), calls, [FailureCount])
  }

  function CheckAndSubmit(info: AttestationInfo, params: AttestationParams, a: Answers): Effect {
    var asked := [AttestationDone(info.staker, a.done)];
    match a.done
    case Err => Effect(Kept, asked, [])
    case Ok(true) => Effect(Done(WaitingForNextEpoch(info)), asked, [])
    case Ok(false) => Submit(info, params, a).After(asked, [])
  }

  function Expire(info: AttestationInfo, a: Answers): Effect {
    Effect(Done(WaitingForNextEpoch(info)), [AttestationDone(info.staker, a.done)],
           if a.done == Ok(true) then [] else [MissedCount])
  }

  function ReachBlock(s: State, n: U64, hash: Felt, a: Answers): Effect
    requires s.BeforeBlockToAttest?
  {
    var b := s.blockToAttest;
    if n < b then Effect(Done(s), [], [])
    else if n == b then Effect(Done(Attesting(s.info, ParamsFor(s.info, b, hash))), [], [])
    else
      var asked := [GetBlockHash(b, a.blockHash)];
      match a.blockHash
      case Ok(h) => Effect(Done(Attesting(s.info, ParamsFor(s.info, b, h))), asked, [])
      case Err => Effect(Kept, asked, [])
  }

  function Confirm(s: State, n: U64, a: Answers): Effect
    requires s.AttestationSubmitted?
  {
    if s.params.InWindow(n) == Position.After then Expire(s.info, a)
    else
      var asked := [AttestationStatus(s.transactionHash, a.status)];
      match a.status
      case Err => Effect(Done(s), asked, [])
      case Ok(status) =>
        if !status.Accepted() then Effect(Done(s), asked, [])
        else if status.AcceptedReverted() then CheckAndSubmit(s.info, s.params, a).After(asked, [FailureCount])
        else Effect(Done(WaitingForNextEpoch(s.info)), asked, [ConfirmedCount])
  }

  /** A header handled within the epoch of the state. */
  function OnHeaderInEpoch(s: State, n: U64, hash: Felt, a: Answers): Effect {
    match s
    case BeforeBlockToAttest(_, _) => ReachBlock(s, n, hash, a)
    case Attesting(info, params) =>
      (match params.InWindow(n)
       case Before => Effect(Done(s), [], [])
       case Inside => CheckAndSubmit(info, params, a)
       case After => Expire(info, a))
    case AttestationSubmitted(_, _, _) => Confirm(s, n, a)
    case WaitingForNextEpoch(_) => Effect(Done(s), [], [])
  }

  function OnHeader(env: Env, s: State, n: U64, hash: Felt, a: Answers): Effect {
    if s.info.Contains(n) then OnHeaderInEpoch(s, n, hash, a)
    else
      var asked := [GetAttestationInfo(env.operationalAddress, a.info)];
      match a.info
      case Err => Effect(Kept, asked, [])
      case Ok(info) =>
        if !info.Assignable() then Effect(Panicked, asked, [])
        else OnHeaderInEpoch(FromAttestationInfo(env, info), n, hash, a).After(asked, [])
  }

  /** A `StakerAttestationSuccessful` event. */
  function OnEvent(s: State, staker: Felt, epoch: U64): Effect {
    if s.info.staker != staker || s.info.epochId != epoch then Effect(Done(s), [], [])
    else
      match s
      case BeforeBlockToAttest(_, _) => Effect(Done(s), [], [ObservedCount])
      case Attesting(info, _) => Effect(Done(WaitingForNextEpoch(info)), [], [ObservedCount])
      case AttestationSubmitted(info, _, _) =>
        Effect(Done(WaitingForNextEpoch(info)), [], [ObservedCount, ConfirmedCount])
      case WaitingForNextEpoch(_) => Effect(Done(s), [], [ObservedCount])
  }

  /** A reorg notice: the state is rebuilt from what the node answers. */
  function OnReorg(env: Env, info: Result<AttestationInfo>): Effect {
    var asked := [GetAttestationInfo(env.operationalAddress, info)];
    match info
    case Err => Effect(Kept, asked, [])
    case Ok(i) =>
      if !i.Assignable() then Effect(Panicked, asked, [])
      else Effect(Done(FromAttestationInfo(env, i)), asked, [])
  }
}
