/** What a single input can do: the facts every theorem about whole runs is built from. */
module Steps {
  import opened Primitives
  import opened AttestationInfos
  import opened States
  import opened Runs

  /** The order of the phases within a session. */
  function Rank(s: State): nat {
    match s
    case BeforeBlockToAttest(_, _) => 0
    case Attesting(_, _) => 1
    case AttestationSubmitted(_, _, _) => 2
    case WaitingForNextEpoch(_) => 3
  }

  /** A confirmation event for the staker and epoch that the state holds. */
  predicate MatchingEvent(s: State, input: Input) {
    input.Event? && input.staker == s.info.staker && input.epoch == s.info.epochId
  }

  /** The step asked for the status of `tx` and was told that it is accepted and reverted. */
  predicate ReportsRevert(calls: seq<Call>, tx: Felt) {
    && calls != [] && calls[0].AttestationStatus? && calls[0].transactionHash == tx
    && calls[0].status.Ok? && calls[0].status.value.AcceptedReverted()
  }

  /** The calls of a step that saw the live transaction reverted and did not get a live one in its place: the new
      call failed, or returned a hash that the program dropped because of the clock. */
  predicate FailedReplacement(s: State, calls: seq<Call>)
    requires s.AttestationSubmitted?
  {
    && |calls| == 3
    && ReportsRevert(calls, s.transactionHash)
    && calls[1] == AttestationDone(s.info.staker, Ok(false))
    && calls[2].Attest? && (calls[2].sending.Sent? ==> !calls[2].sending.clockOk)
  }

  /** Phase order of one header inside the epoch. */
  lemma PhaseInEpoch(s: State, n: U64, hash: Felt, a: Answers)
    ensures var e := OnHeaderInEpoch(s, n, hash, a);
            var next := if e.outcome.Done? then e.outcome.state else s;
            && next.info == s.info
            && (s.WaitingForNextEpoch? ==> next == s)
            && (Rank(s) >= 1 ==> Rank(next) >= 1)
            && (Rank(next) < Rank(s) <==> s.AttestationSubmitted? && FailedReplacement(s, e.calls))
            && (Rank(next) < Rank(s) ==> next == Attesting(s.info, s.params))
            && !e.outcome.Panicked?
            && (e.calls != [] ==> !e.calls[0].GetAttestationInfo?)
  {
  }

  /** Phase order of one step within a session: the info stays, the phase moves forward, with one exception
      that the step's own calls identify exactly. */
  lemma SessionStep(env: Env, w: World, input: Input)
    requires !Adoption(EffectOf(env, w, input))
    ensures var s, next := w.state, Next(env, w, input).state;
            && next.info == s.info
            && (s.WaitingForNextEpoch? ==> next == s)
            && (Rank(s) >= 1 ==> Rank(next) >= 1)
            && (Rank(next) < Rank(s) <==>
                s.AttestationSubmitted? && FailedReplacement(s, EffectOf(env, w, input).calls))
            && (Rank(next) < Rank(s) ==> next == Attesting(s.info, s.params))
  {
    if !w.halted && input.Header? {
      PhaseInEpoch(w.state, input.number, input.hash, input.answers);
    }
  }

  /** A step that begins a session: it asked for the info at most one other thing, sent nothing, counted
      nothing, and left the machine before or at the start of the attestation. */
  lemma AdoptionStep(env: Env, w: World, input: Input)
    requires Adoption(EffectOf(env, w, input))
    ensures var e, next := EffectOf(env, w, input), Next(env, w, input).state;
            && !w.halted
            && (input.TakeReorg? || (input.Header? && !w.state.info.Contains(input.number)))
            && e.ticks == []
            && e.calls[0] == GetAttestationInfo(env.operationalAddress, Ok(next.info))
            && next.info.Assignable()
            && (forall call :: call in e.calls ==> call.GetAttestationInfo? || call.GetBlockHash?)
            && (next == FromAttestationInfo(env, next.info) ||
                (next.Attesting? &&
                 next.params == ParamsFor(next.info, AssignedBlock(env, next.info), next.params.blockHash)))
  {
  }

  /** A header outside the epoch of the state counts nothing, and is handled without error only by adopting a new
      info. */
  lemma OutsideStep(env: Env, w: World, input: Input)
    requires input.Header? && !w.state.info.Contains(input.number)
    ensures var e := EffectOf(env, w, input);
            && e.ticks == []
            && (forall call :: call in e.calls ==> call.GetAttestationInfo? || call.GetBlockHash?)
            && (e.outcome.Done? <==> Adoption(e))
  {
    if !w.halted && input.answers.info.Ok? && input.answers.info.value.Assignable() {
      var s := FromAttestationInfo(env, input.answers.info.value);
      var e := OnHeaderInEpoch(s, input.number, input.hash, input.answers);
      assert e == ReachBlock(s, input.number, input.hash, input.answers);
      assert e.ticks == [];
    }
  }

  /** The shape of the calls around an `attest`: the node has just said that the epoch is not attested yet,
      and a transaction that was live has just been seen reverted. */
  predicate AttestShape(s: State, calls: seq<Call>, call: Call)
    requires s.Started()
  {
    && |calls| == (if s.Attesting? then 2 else 3)
    && calls[|calls| - 2] == AttestationDone(s.info.staker, Ok(false))
    && calls[|calls| - 1] == call
    && call.Attest? && call.sender == s.info.operational && call.blockHash == s.params.blockHash
    && (s.AttestationSubmitted? ==> ReportsRevert(calls, s.transactionHash))
  }

  function AfterSending(s: State, sending: Sending): State
    requires s.Started()
  {
    match sending
    case Sent(tx, true) => AttestationSubmitted(s.info, s.params, tx)
    case _ => Attesting(s.info, s.params)
  }

  lemma CheckAndSubmitCalls(info: AttestationInfo, params: AttestationParams, a: Answers)
    ensures var calls := CheckAndSubmit(info, params, a).calls;
            && |calls| == (if a.done == Ok(false) then 2 else 1)
            && calls[0] == AttestationDone(info.staker, a.done)
            && (a.done == Ok(false) ==> calls[1] == Attest(info.operational, params.blockHash, a.attest))
  {
  }

  lemma AttestWhileSubmitted(s: State, n: U64, a: Answers, call: Call)
    requires s.AttestationSubmitted?
    requires call in Confirm(s, n, a).calls && call.Attest?
    ensures AttestShape(s, Confirm(s, n, a).calls, call)
    ensures s.params.InWindow(n) != Position.After
    ensures Confirm(s, n, a).outcome == Done(AfterSending(s, call.sending))
  {
    CheckAndSubmitCalls(s.info, s.params, a);
    var check := CheckAndSubmit(s.info, s.params, a);
    assert Confirm(s, n, a) == check.After([AttestationStatus(s.transactionHash, a.status)], [FailureCount]);
    assert a.done == Ok(false);
    assert call == check.calls[1];
  }

  lemma AttestInEpoch(s: State, n: U64, hash: Felt, a: Answers, call: Call)
    requires call in OnHeaderInEpoch(s, n, hash, a).calls && call.Attest?
    ensures s.Started()
    ensures AttestShape(s, OnHeaderInEpoch(s, n, hash, a).calls, call)
    ensures s.params.InWindow(n) == Inside || (s.AttestationSubmitted? && s.params.InWindow(n) == Before)
    ensures OnHeaderInEpoch(s, n, hash, a).outcome == Done(AfterSending(s, call.sending))
  {
    if s.Attesting? {
      CheckAndSubmitCalls(s.info, s.params, a);
    } else if s.AttestationSubmitted? {
      AttestWhileSubmitted(s, n, a, call);
    }
  }

  /** Every step that makes an `attest` call. */
  lemma AttestStep(env: Env, w: World, input: Input, call: Call)
    requires call in EffectOf(env, w, input).calls && call.Attest?
    ensures !w.halted && input.Header? && w.state.info.Contains(input.number)
    ensures w.state.Started()
    ensures var s, e := w.state, EffectOf(env, w, input);
            && !Adoption(e)
            && AttestShape(s, e.calls, call)
            && (s.params.InWindow(input.number) == Inside ||
                (s.AttestationSubmitted? && s.params.InWindow(input.number) == Before))
            && Next(env, w, input).state == AfterSending(s, call.sending)
  {
    if w.state.info.Contains(input.number) {
      AttestInEpoch(w.state, input.number, input.hash, input.answers, call);
    } else {
      AttestInEpoch(FromAttestationInfo(env, input.answers.info.value), input.number, input.hash, input.answers, call);
    }
  }

  /** A live transaction was live before the step, or the step sent it with its last call. */
  lemma LiveTransactionStep(env: Env, w: World, input: Input)
    requires Next(env, w, input).state.AttestationSubmitted?
    ensures var e, next := EffectOf(env, w, input), Next(env, w, input).state;
            && !Adoption(e)
            && next.info == w.state.info
            && (w.state == next || EndsWithSending(e.calls, next.transactionHash))
  {
  }

  predicate EndsWithSending(calls: seq<Call>, tx: Felt) {
    && calls != []
    && calls[|calls| - 1].Attest? && calls[|calls| - 1].sending == Sent(tx, true)
  }

  /** A header inside the epoch, handled without error. */
  lemma HandledInEpoch(r: Run, i: nat)
    requires r.Valid() && i < |r.inputs| && r.inputs[i].Header?
    requires r.effects[i].outcome.Done? && r.State(i).info.Contains(r.inputs[i].number)
    ensures var input := r.inputs[i];
            && !r.worlds[i].halted
            && r.effects[i] == OnHeaderInEpoch(r.State(i), input.number, input.hash, input.answers)
            && r.State(i + 1) == r.effects[i].outcome.state
  {
    assert r.Linked(i);
  }

  /** A header inside the epoch, whatever comes of it. */
  lemma HeaderStep(r: Run, k: nat)
    requires r.Valid() && k < |r.inputs| && r.inputs[k].Header? && !r.worlds[k].halted
    requires r.State(k).info.Contains(r.inputs[k].number)
    ensures var input := r.inputs[k];
            && r.effects[k] == OnHeaderInEpoch(r.State(k), input.number, input.hash, input.answers)
            && r.State(k + 1) == (if r.effects[k].outcome.Done? then r.effects[k].outcome.state else r.State(k))
            && r.worlds[k + 1].halted == r.effects[k].outcome.Panicked?
            && r.worlds[k + 1].reorgs == r.worlds[k].reorgs
  {
    assert r.Linked(k);
  }
}
