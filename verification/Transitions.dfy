/** What each input does in each phase of any run, in terms of block numbers and the node's answers. With E the end of
    the epoch, b its assigned block and w its window, these lemmas leave no case open for sane infos. */
module Transitions {
  import opened Primitives
  import opened AttestationInfos
  import opened States
  import opened Runs
  import opened Steps
  import opened Reachability

  /** The main loop is alive and takes a header in [start, E) of the epoch it holds. */
  ghost predicate InEpoch(r: Run, k: nat)
    requires r.Shaped() && k < |r.inputs|
  {
    && !r.worlds[k].halted && r.inputs[k].Header? && r.State(k).info.Sane()
    && r.State(k).info.start <= r.inputs[k].number < r.State(k).info.start + r.State(k).info.epochLen
  }

  /** The step changed nothing and asked nothing. */
  ghost predicate Idle(r: Run, k: nat)
    requires r.Shaped() && k < |r.inputs|
  {
    r.effects[k] == Effect(Done(r.State(k)), [], [])
  }

  /** The attestation of block `b` starts, with this hash and the window [b + 11, b + w). */
  predicate Starts(outcome: Outcome, info: AttestationInfo, b: nat, hash: Felt) {
    && outcome.Done? && outcome.state.Attesting? && outcome.state.info == info
    && outcome.state.params.blockHash == hash
    && outcome.state.params.windowStart == b + 11
    && outcome.state.params.windowEnd == b + info.window
  }

  /** The step that reaches block `b`, or does not, for a header with number `n`. */
  predicate Reaches(s: State, b: nat, n: nat, hash: Felt, a: Answers, e: Effect) {
    && e.ticks == []
    && (n < b ==> e.outcome == Done(s) && e.calls == [])
    && (n == b ==> Starts(e.outcome, s.info, b, hash) && e.calls == [])
    && (n > b ==> |e.calls| == 1 && e.calls[0].GetBlockHash? && e.calls[0].block == b
                  && e.calls[0].hash == a.blockHash
                  && (a.blockHash.Err? ==> e.outcome == Kept)
                  && (a.blockHash.Ok? ==> Starts(e.outcome, s.info, b, a.blockHash.value)))
  }

  /** The node is asked whether the epoch is attested, and if it is not, a transaction is sent. */
  predicate AsksAndSends(s: State, a: Answers, e: Effect, callsBefore: seq<Call>, ticksBefore: seq<Counter>)
    requires s.Started()
  {
    var asked := callsBefore + [AttestationDone(s.info.staker, a.done)];
    match a.done
    case Err => e == Effect(Kept, asked, ticksBefore)
    case Ok(true) => e == Effect(Done(WaitingForNextEpoch(s.info)), asked, ticksBefore)
    case Ok(false) =>
      && e.calls == asked + [Attest(s.info.operational, s.params.blockHash, a.attest)]
      && match a.attest
         case Sent(tx, true) =>
           e.outcome == Done(AttestationSubmitted(s.info, s.params, tx)) && e.ticks == ticksBefore + [SubmittedCount]
         case Sent(_, false) => e.outcome == Done(Attesting(s.info, s.params)) && e.ticks == ticksBefore
         case Failed => e.outcome == Done(Attesting(s.info, s.params)) && e.ticks == ticksBefore + [FailureCount]
  }

  /** The window is over: whether the epoch counts as missed hangs on one answer. */
  predicate Closes(s: State, a: Answers, e: Effect) {
    && e.outcome == Done(WaitingForNextEpoch(s.info))
    && e.calls == [AttestationDone(s.info.staker, a.done)]
    && e.ticks == if a.done == Ok(true) then [] else [MissedCount]
  }

  /** A live transaction is asked about. */
  predicate FollowsUp(s: State, a: Answers, e: Effect)
    requires s.AttestationSubmitted?
  {
    var asked := [AttestationStatus(s.transactionHash, a.status)];
    match a.status
    case Err => e == Effect(Done(s), asked, [])
    case Ok(Received) => e == Effect(Done(s), asked, [])
    case Ok(Candidate) => e == Effect(Done(s), asked, [])
    case Ok(PreConfirmed(_)) => e == Effect(Done(s), asked, [])
    case Ok(AcceptedOnL2(Succeeded)) => e == Effect(Done(WaitingForNextEpoch(s.info)), asked, [ConfirmedCount])
    case Ok(AcceptedOnL1(Succeeded)) => e == Effect(Done(WaitingForNextEpoch(s.info)), asked, [ConfirmedCount])
    case Ok(AcceptedOnL2(Reverted)) => AsksAndSends(s, a, e, asked, [FailureCount])
    case Ok(AcceptedOnL1(Reverted)) => AsksAndSends(s, a, e, asked, [FailureCount])
  }

  lemma InEpochStep(r: Run, k: nat)
    requires r.Valid() && k < |r.inputs| && InEpoch(r, k)
    ensures r.State(k).info.Contains(r.inputs[k].number)
    ensures ExactWindow(r.env, r.State(k)) && Coherent(r.env, r.State(k))
    ensures r.effects[k] ==
            OnHeaderInEpoch(r.State(k), r.inputs[k].number, r.inputs[k].hash, r.inputs[k].answers)
  {
    ReachableWindow(r, k);
    ReachableCoherent(r, k);
    HeaderStep(r, k);
  }

  lemma ReachesStep(env: Env, s: State, n: U64, hash: Felt, a: Answers)
    requires s.BeforeBlockToAttest? && s.info.Sane() && s.blockToAttest == Block(env, s)
    ensures Reaches(s, Block(env, s), n, hash, a, OnHeaderInEpoch(s, n, hash, a))
  {
    AssignedBlockPlacement(env, s.info);
  }

  /** Before the assigned block nothing happens; its header starts the attestation; a later header fetches the hash,
      and the step fails if it cannot. */
  lemma BeforeTheBlock(r: Run, k: nat)
    requires r.Valid() && k < |r.inputs| && InEpoch(r, k) && r.State(k).BeforeBlockToAttest?
    ensures Reaches(r.State(k), Block(r.env, r.State(k)), r.inputs[k].number, r.inputs[k].hash, r.inputs[k].answers,
                    r.effects[k])
  {
    InEpochStep(r, k);
    ReachesStep(r.env, r.State(k), r.inputs[k].number, r.inputs[k].hash, r.inputs[k].answers);
  }

  lemma ChecksStep(s: State, a: Answers, callsBefore: seq<Call>, ticksBefore: seq<Counter>)
    requires s.Started()
    ensures AsksAndSends(s, a, CheckAndSubmit(s.info, s.params, a).After(callsBefore, ticksBefore),
                         callsBefore, ticksBefore)
  {
    var asked := AttestationDone(s.info.staker, a.done);
    var sent := Attest(s.info.operational, s.params.blockHash, a.attest);
    assert callsBefore + ([asked] + [sent]) == callsBefore + [asked] + [sent];
    assert ticksBefore + ([] + []) == ticksBefore && ticksBefore + [] == ticksBefore;
    assert ticksBefore + ([] + [SubmittedCount]) == ticksBefore + [SubmittedCount];
    assert ticksBefore + ([] + [FailureCount]) == ticksBefore + [FailureCount];
  }

  /** While attesting, the first ten blocks after b bring nothing, those of the window the question and the
      transaction, and the next one the end. */
  lemma WhileAttesting(r: Run, k: nat)
    requires r.Valid() && k < |r.inputs| && InEpoch(r, k) && r.State(k).Attesting?
    ensures var s, n, a := r.State(k), r.inputs[k].number, r.inputs[k].answers;
            var b := Block(r.env, s);
            && (n < b + 11 ==> Idle(r, k))
            && (b + 11 <= n < b + s.info.window ==> AsksAndSends(s, a, r.effects[k], [], []))
            && (b + 11 <= n && b + s.info.window <= n ==> Closes(s, a, r.effects[k]))
  {
    InEpochStep(r, k);
    var s, a := r.State(k), r.inputs[k].answers;
    ChecksStep(s, a, [], []);
    AfterNothing(CheckAndSubmit(s.info, s.params, a));
  }

  lemma AfterNothing(e: Effect)
    ensures e.After([], []) == e
  {
    assert [] + e.calls == e.calls && [] + e.ticks == e.ticks;
  }

  /** A live transaction is followed up at every header until the window is over. */
  lemma WhileSubmitted(r: Run, k: nat)
    requires r.Valid() && k < |r.inputs| && InEpoch(r, k) && r.State(k).AttestationSubmitted?
    ensures var s, n, a := r.State(k), r.inputs[k].number, r.inputs[k].answers;
            var b := Block(r.env, s);
            && (n < b + 11 || n < b + s.info.window ==> FollowsUp(s, a, r.effects[k]))
            && (b + 11 <= n && b + s.info.window <= n ==> Closes(s, a, r.effects[k]))
  {
    InEpochStep(r, k);
    var s, a := r.State(k), r.inputs[k].answers;
    ChecksStep(s, a, [AttestationStatus(s.transactionHash, a.status)], [FailureCount]);
  }

  /** While waiting for the next epoch, headers of this one bring nothing. */
  lemma WhileWaiting(r: Run, k: nat)
    requires r.Valid() && k < |r.inputs| && InEpoch(r, k) && r.State(k).WaitingForNextEpoch?
    ensures Idle(r, k)
  {
    InEpochStep(r, k);
  }

  /** A header outside [start, E), and every header if E does not fit 64 bits, makes the program ask for the current
      info, of the configured address. Without an answer the step fails; with an answer whose window is as long as its
      epoch the process dies; with a sane answer a session begins, and its assigned block may be reached by this very
      header. */
  lemma OutsideTheEpoch(r: Run, k: nat)
    requires r.Valid() && k < |r.inputs| && !r.worlds[k].halted && r.inputs[k].Header?
    requires || r.inputs[k].number < r.State(k).info.start
             || r.State(k).info.start + r.State(k).info.epochLen <= r.inputs[k].number
             || r.State(k).info.start + r.State(k).info.epochLen >= 0x1_0000_0000_0000_0000
    ensures var e, input, answer := r.effects[k], r.inputs[k], r.inputs[k].answers.info;
            && e.calls != [] && e.calls[0] == GetAttestationInfo(r.env.operationalAddress, answer)
            && (answer.Err? ==> e == Effect(Kept, [e.calls[0]], []))
            && (answer.Ok? && answer.value.window == answer.value.epochLen ==> e == Effect(Panicked, [e.calls[0]], []))
            && (answer.Ok? && answer.value.Sane() ==>
                  var info := answer.value;
                  var b := AssignedBlock(r.env, info);
                  Reaches(BeforeBlockToAttest(info, b), b, input.number, input.hash, input.answers,
                          Effect(e.outcome, e.calls[1..], e.ticks)))
  {
    assert r.Linked(k);
    var answer := r.inputs[k].answers.info;
    assert !r.State(k).info.Contains(r.inputs[k].number);
    if answer.Ok? && answer.value.Sane() {
      var s := FromAttestationInfo(r.env, answer.value);
      ReachesStep(r.env, s, r.inputs[k].number, r.inputs[k].hash, r.inputs[k].answers);
    }
  }

  /** A confirmation event counts if it is for the staker and epoch held, and then ends a started attestation; it
      confirms the live transaction, if there is one. */
  lemma OnAnEvent(r: Run, k: nat)
    requires r.Valid() && k < |r.inputs| && !r.worlds[k].halted && r.inputs[k].Event?
    ensures var s, e := r.State(k), r.effects[k];
            if r.inputs[k].staker != s.info.staker || r.inputs[k].epoch != s.info.epochId then Idle(r, k)
            else
              && e.calls == []
              && e.outcome == Done(if s.Attesting? || s.AttestationSubmitted? then WaitingForNextEpoch(s.info) else s)
              && e.ticks == (if s.AttestationSubmitted? then [ObservedCount, ConfirmedCount] else [ObservedCount])
  {
    assert r.Linked(k);
  }

  /** A reorg notice only queues. One that is taken makes the program ask for the current info: without an answer it
      goes on as before, with a sane one it starts over before the assigned block. */
  lemma OnAReorg(r: Run, k: nat)
    requires r.Valid() && k < |r.inputs| && !r.worlds[k].halted && (r.inputs[k].ReorgNotice? || r.inputs[k].TakeReorg?)
    ensures r.inputs[k].ReorgNotice? || r.worlds[k].reorgs == [] ==> Idle(r, k)
    ensures r.inputs[k].TakeReorg? && r.worlds[k].reorgs != [] ==>
              var answer := r.inputs[k].answer;
              && r.effects[k].calls == [GetAttestationInfo(r.env.operationalAddress, answer)]
              && r.effects[k].ticks == []
              && (answer.Err? ==> r.effects[k].outcome == Kept)
              && (answer.Ok? && answer.value.window == answer.value.epochLen ==> r.effects[k].outcome == Panicked)
              && (answer.Ok? && answer.value.Sane() ==>
                    r.effects[k].outcome ==
                    Done(BeforeBlockToAttest(answer.value, AssignedBlock(r.env, answer.value))))
  {
    assert r.Linked(k);
  }
}
