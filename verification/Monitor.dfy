/** The program's handlers and its main loop, proved to compute the step function of `Runs`. */
module Monitors {
  import opened Primitives
  import opened AttestationInfos
  import opened States
  import opened Runs

  /** The JSON-RPC client: it delivers the node's answers and, as a ghost, remembers every call. */
  class Node {
    var answers: Answers
    ghost var log: seq<Call>

    constructor (answers: Answers)
      ensures this.answers == answers && log == []
    {
      this.answers := answers;
      log := [];
    }

    method FetchAttestationInfo(operational: Felt) returns (r: Result<AttestationInfo>)
      modifies this`log
      ensures r == answers.info
      ensures log == old(log) + [GetAttestationInfo(operational, r)]
    {
      r := answers.info;
      log := log + [GetAttestationInfo(operational, r)];
    }

    method FetchBlockHash(block: U64) returns (r: Result<Felt>)
      modifies this`log
      ensures r == answers.blockHash
      ensures log == old(log) + [GetBlockHash(block, r)]
    {
      r := answers.blockHash;
      log := log + [GetBlockHash(block, r)];
    }

    method AttestationDoneInCurrentEpoch(staker: Felt) returns (r: Result<bool>)
      modifies this`log
      ensures r == answers.done
      ensures log == old(log) + [AttestationDone(staker, r)]
    {
      r := answers.done;
      log := log + [AttestationDone(staker, r)];
    }

    method SendAttestation(sender: Felt, blockHash: Felt) returns (r: Sending)
      modifies this`log
      ensures r == answers.attest
      ensures log == old(log) + [Attest(sender, blockHash, r)]
    {
      r := answers.attest;
      log := log + [Attest(sender, blockHash, r)];
    }

    method FetchStatus(transactionHash: Felt) returns (r: Result<TransactionStatus>)
      modifies this`log
      ensures r == answers.status
      ensures log == old(log) + [AttestationStatus(transactionHash, r)]
    {
      r := answers.status;
      log := log + [AttestationStatus(transactionHash, r)];
    }
  }

  /** The process-wide registry of counters; a ghost remembers the increments in order. */
  class Metrics {
    var counts: multiset<Counter>
    ghost var ticks: seq<Counter>

    ghost predicate Valid()
      reads this
    {
      counts == multiset(ticks)
    }

    constructor ()
      ensures Valid() && ticks == []
    {
      counts := multiset{};
      ticks := [];
    }

    method Increment(counter: Counter)
      requires Valid()
      modifies this
      ensures Valid() && ticks == old(ticks) + [counter]
    {
      counts := counts[counter := counts[counter] + 1];
      ticks := ticks + [counter];
    }
  }

  method SubmitAttestation(node: Node, metrics: Metrics, info: AttestationInfo, params: AttestationParams)
    returns (r: Result<Felt>)
    requires metrics.Valid()
    modifies node`log, metrics
    ensures var e := Submit(info, params, node.answers);
            && node.log == old(node.log) + e.calls
            && metrics.Valid() && metrics.ticks == old(metrics.ticks) + e.ticks
            && e.outcome == Done(if r.Ok? then AttestationSubmitted(info, params, r.value) else Attesting(info, params))
  {
    var sending := node.SendAttestation(info.operational, params.blockHash);
    match sending {
      case Sent(transactionHash, clockOk) =>
        if !clockOk {
          return Err;
        }
        metrics.Increment(SubmittedCount);
        r := Ok(transactionHash);
      case Failed =>
        metrics.Increment(FailureCount);
        r := Err;
    }
  }

  method CheckAndSubmitAttestation(node: Node, metrics: Metrics, info: AttestationInfo, params: AttestationParams)
    returns (outcome: Outcome)
    requires metrics.Valid()
    modifies node`log, metrics
    ensures var e := CheckAndSubmit(info, params, node.answers);
            && outcome == e.outcome
            && node.log == old(node.log) + e.calls
            && metrics.Valid() && metrics.ticks == old(metrics.ticks) + e.ticks
  {
    var done := node.AttestationDoneInCurrentEpoch(info.staker);
    if done.Err? {
      return Kept;
    }
    if done.value {
      return Done(WaitingForNextEpoch(info));
    }
    var r := SubmitAttestation(node, metrics, info, params);
    match r {
      case Ok(transactionHash) => outcome := Done(AttestationSubmitted(info, params, transactionHash));
      case Err => outcome := Done(Attesting(info, params));
    }
  }

  method CheckAndMarkEpochAsMissed(node: Node, metrics: Metrics, info: AttestationInfo)
    requires metrics.Valid()
    modifies node`log, metrics
    ensures var e := Expire(info, node.answers);
            && node.log == old(node.log) + e.calls
            && metrics.Valid() && metrics.ticks == old(metrics.ticks) + e.ticks
  {
    var done := node.AttestationDoneInCurrentEpoch(info.staker);
    match done {
      case Ok(attested) =>
        if !attested {
          metrics.Increment(MissedCount);
        }
      case Err =>
        metrics.Increment(MissedCount);
    }
  }

  method HandleHeaderInEpoch(s: State, node: Node, metrics: Metrics, n: U64, hash: Felt) returns (outcome: Outcome)
    requires metrics.Valid()
    modifies node`log, metrics
    ensures var e := OnHeaderInEpoch(s, n, hash, node.answers);
            && outcome == e.outcome
            && node.log == old(node.log) + e.calls
            && metrics.Valid() && metrics.ticks == old(metrics.ticks) + e.ticks
  {
    match s {
      case BeforeBlockToAttest(info, blockToAttest) =>
        if n < blockToAttest {
          outcome := Done(s);
        } else if n == blockToAttest {
          outcome := Done(Attesting(info, AttestationParams(
            hash, WrappingAdd(n, MIN_ATTESTATION_WINDOW), WrappingAdd(n, info.window))));
        } else {
          var fetched := node.FetchBlockHash(blockToAttest);
          match fetched {
            case Ok(blockHash) =>
              outcome := Done(Attesting(info, AttestationParams(
                blockHash,
                WrappingAdd(blockToAttest, MIN_ATTESTATION_WINDOW),
                WrappingAdd(blockToAttest, info.window))));
            case Err =>
              outcome := Kept;
          }
        }
      case Attesting(info, params) =>
        match params.InWindow(n) {
          case Before =>
            outcome := Done(s);
          case Inside =>
            outcome := CheckAndSubmitAttestation(node, metrics, info, params);
          case After =>
            CheckAndMarkEpochAsMissed(node, metrics, info);
            outcome := Done(WaitingForNextEpoch(info));
        }
      case AttestationSubmitted(info, params, transactionHash) =>
        outcome := HandleHeaderWhileSubmitted(s, node, metrics, n);
      case WaitingForNextEpoch(_) =>
        outcome := Done(s);
    }
  }

  method HandleHeaderWhileSubmitted(s: State, node: Node, metrics: Metrics, n: U64) returns (outcome: Outcome)
    requires s.AttestationSubmitted?
    requires metrics.Valid()
    modifies node`log, metrics
    ensures var e := Confirm(s, n, node.answers);
            && outcome == e.outcome
            && node.log == old(node.log) + e.calls
            && metrics.Valid() && metrics.ticks == old(metrics.ticks) + e.ticks
  {
    if s.params.InWindow(n) == Position.After {
      CheckAndMarkEpochAsMissed(node, metrics, s.info);
      return Done(WaitingForNextEpoch(s.info));
    }
    var status := node.FetchStatus(s.transactionHash);
    if status.Err? || status.value.Received? || status.value.Candidate? || status.value.PreConfirmed? {
      outcome := Done(s);
    } else if status.value.execution == Reverted {
      metrics.Increment(FailureCount);
      ghost var e := CheckAndSubmit(s.info, s.params, node.answers);
      AfterFollows(old(node.log), old(metrics.ticks), e,
                   [AttestationStatus(s.transactionHash, status)], [FailureCount]);
      outcome := CheckAndSubmitAttestation(node, metrics, s.info, s.params);
    } else {
      metrics.Increment(ConfirmedCount);
      outcome := Done(WaitingForNextEpoch(s.info));
    }
  }

  method HandleNewBlockHeader(env: Env, s: State, node: Node, metrics: Metrics, n: U64, hash: Felt)
    returns (outcome: Outcome)
    requires metrics.Valid()
    modifies node`log, metrics
    ensures var e := OnHeader(env, s, n, hash, node.answers);
            && outcome == e.outcome
            && node.log == old(node.log) + e.calls
            && metrics.Valid() && metrics.ticks == old(metrics.ticks) + e.ticks
  {
    var current := s;
    if !s.info.Contains(n) {
      var fetched := node.FetchAttestationInfo(env.operationalAddress);
      if fetched.Err? {
        return Kept;
      }
      if !fetched.value.Assignable() {
        return Panicked;
      }
      current := FromAttestationInfo(env, fetched.value);
    }
    ghost var e := OnHeaderInEpoch(current, n, hash, node.answers);
    AfterFollows(old(node.log), old(metrics.ticks), e,
                 if s.info.Contains(n) then [] else [GetAttestationInfo(env.operationalAddress, node.answers.info)],
                 []);
    outcome := HandleHeaderInEpoch(current, node, metrics, n, hash);
  }

  method HandleNewEvent(s: State, metrics: Metrics, staker: Felt, epoch: U64) returns (next: State)
    requires metrics.Valid()
    modifies metrics
    ensures var e := OnEvent(s, staker, epoch);
            && e.outcome == Done(next)
            && metrics.Valid() && metrics.ticks == old(metrics.ticks) + e.ticks
  {
    next := s;
    if s.info.staker == staker && s.info.epochId == epoch {
      metrics.Increment(ObservedCount);
      match s {
        case BeforeBlockToAttest(_, _) =>
        case Attesting(info, _) =>
          next := WaitingForNextEpoch(info);
        case AttestationSubmitted(info, _, _) =>
          metrics.Increment(ConfirmedCount);
          next := WaitingForNextEpoch(info);
        case WaitingForNextEpoch(_) =>
      }
    }
  }

  /** The main loop with the state it owns. */
  class Monitor {
    const env: Env
    const node: Node
    const metrics: Metrics
    var state: State
    var reorgs: seq<ReorgData>
    var halted: bool

    ghost function Snapshot(): World
      reads this, node, metrics
    {
      World(state, reorgs, node.log, metrics.ticks, halted)
    }

    constructor (env: Env, info: AttestationInfo, answers: Answers)
      requires info.Assignable()
      ensures this.env == env && fresh(node) && fresh(metrics)
      ensures metrics.Valid() && Snapshot() == Boot(env, info)
    {
      this.env := env;
      node := new Node(answers);
      metrics := new Metrics();
      state := FromAttestationInfo(env, info);
      reorgs := [];
      halted := false;
    }

    method Step(input: Input)
      requires !halted && metrics.Valid()
      modifies this, node, metrics
      ensures metrics.Valid() && Snapshot() == Next(env, old(Snapshot()), input)
    {
      match input {
        case Header(n, hash, answers) =>
          node.answers := answers;
          var oldState := state;
          var outcome := HandleNewBlockHeader(env, state, node, metrics, n, hash);
          match outcome {
            case Done(newState) => state := newState;
            case Kept => state := oldState;
            case Panicked => halted := true;
          }
        case Event(staker, epoch) =>
          state := HandleNewEvent(state, metrics, staker, epoch);
        case ReorgNotice(data) =>
          reorgs := reorgs + [data];
        case TakeReorg(answer) =>
          if reorgs != [] {
            Reinitialise(answer);
          }
      }
    }

    /** Takes the oldest notice; on failure puts it back at the end of the queue. */
    method Reinitialise(answer: Result<AttestationInfo>)
      requires !halted && reorgs != []
      modifies this, node
      ensures Snapshot() == Next(env, old(Snapshot()), TakeReorg(answer))
    {
      var notice := reorgs[0];
      reorgs := reorgs[1..];
      node.answers := node.answers.(info := answer);
      var fetched := node.FetchAttestationInfo(env.operationalAddress);
      match fetched {
        case Ok(info) =>
          if info.Assignable() {
            state := FromAttestationInfo(env, info);
          } else {
            halted := true;
          }
        case Err =>
          reorgs := reorgs + [notice];
      }
    }

    /** One turn of the loop; the ghost record of the run grows by one entry. */
    method Turn(ghost r: Run, input: Input) returns (ghost e: Run)
      requires r.Valid() && r.env == env && Snapshot() == r.worlds[|r.inputs|]
      requires !halted && metrics.Valid()
      modifies this, node, metrics
      ensures metrics.Valid()
      ensures e.Valid() && e.env == r.env && e.first == r.first && e.inputs == r.inputs + [input]
      ensures Snapshot() == e.worlds[|e.inputs|]
    {
      ExtendValid(r, input);
      e := r.Extend(input);
      Step(input);
    }

    /** The endless loop, over the inputs it happens to take. Only a panic ends it. */
    method Loop(first: AttestationInfo, inputs: seq<Input>) returns (taken: nat)
      requires first.Assignable() && metrics.Valid() && Snapshot() == Boot(env, first)
      modifies this, node, metrics
      ensures taken <= |inputs| && (taken < |inputs| ==> halted)
      ensures metrics.Valid() && Snapshot() == Fold(env, Boot(env, first), inputs[..taken])
    {
      taken := 0;
      ghost var r := Start(env, first);
      while taken < |inputs| && !halted
        invariant taken <= |inputs|
        invariant metrics.Valid()
        invariant r.Valid() && r.env == env && r.first == first && r.inputs == inputs[..taken]
        invariant Snapshot() == r.worlds[taken]
      {
        r := Turn(r, inputs[taken]);
        taken := taken + 1;
      }
      RunIsFold(r, taken);
      assert r.inputs[..taken] == inputs[..taken];
    }
  }
}
