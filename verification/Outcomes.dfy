/** Exactly how a session ends, when an epoch counts as missed, and when a step fails. */
module Outcomes {
  import opened Primitives
  import opened AttestationInfos
  import opened States
  import opened Runs
  import opened Steps
  import opened Accounting
  import opened Conservation

  /** The header is the first one past the attestation window that this attestation sees. */
  predicate WindowClosed(s: State, input: Input) {
    && s.Started() && input.Header? && s.info.Contains(input.number)
    && s.params.InWindow(input.number) == Position.After
  }

  /** The node's last word in the step was its answer to "is this epoch attested?". */
  predicate LastAnswer(s: State, calls: seq<Call>, done: Result<bool>) {
    calls != [] && calls[|calls| - 1] == AttestationDone(s.info.staker, done)
  }

  // ---------- The end of a session ----------

  /** A reason for a started attestation to end. */
  predicate Ended(s: State, input: Input, e: Effect)
    requires s.Started()
  {
    || MatchingEvent(s, input)
    || WindowClosed(s, input)
    || LastAnswer(s, e.calls, Ok(true))
    || (s.AttestationSubmitted? && ReportsSuccess(e.calls, s.transactionHash))
  }

  lemma EndWhileSubmitted(s: State, n: U64, hash: Felt, a: Answers)
    requires s.info.Contains(n) && s.AttestationSubmitted?
    ensures var e := Confirm(s, n, a);
            e.outcome.Done? && e.outcome.state.WaitingForNextEpoch? <==> Ended(s, Header(n, hash, a), e)
  {
    CheckEnds(s.info, s.params, a);
  }

  lemma EndInEpoch(s: State, n: U64, hash: Felt, a: Answers)
    requires s.info.Contains(n)
    ensures var e := OnHeaderInEpoch(s, n, hash, a);
            e.outcome.Done? && e.outcome.state.WaitingForNextEpoch? <==>
            s.WaitingForNextEpoch? || (s.Started() && Ended(s, Header(n, hash, a), e))
  {
    if s.AttestationSubmitted? {
      EndWhileSubmitted(s, n, hash, a);
    } else if s.Attesting? {
      CheckEnds(s.info, s.params, a);
    }
  }

  lemma CheckEnds(info: AttestationInfo, params: AttestationParams, a: Answers)
    ensures var e := CheckAndSubmit(info, params, a);
            && e.calls != []
            && (e.outcome == Done(WaitingForNextEpoch(info)) <==>
                e.calls[|e.calls| - 1] == AttestationDone(info.staker, Ok(true)))
            && (e.outcome.Kept? <==> e.calls[|e.calls| - 1] == AttestationDone(info.staker, Err))
            && (e.outcome.Done? && e.outcome.state.WaitingForNextEpoch? ==>
                e.outcome == Done(WaitingForNextEpoch(info)))
            && !e.outcome.Panicked?
            && (e.calls[|e.calls| - 1].AttestationDone? || e.calls[|e.calls| - 1].Attest?)
  {
  }

  /** Within a session, a machine that was not waiting starts to wait exactly when the attestation had started and
      one of four things happened: a matching confirmation event, a header past the window, the node's answer that
      the epoch is attested, or its report that the live transaction succeeded. */
  lemma SessionEndsExactly(r: Run, k: nat)
    requires r.Valid() && k < |r.inputs| && !r.Adopts(k) && !r.worlds[k].halted
    requires !r.State(k).WaitingForNextEpoch?
    ensures r.State(k + 1).WaitingForNextEpoch? <==>
            r.State(k).Started() && Ended(r.State(k), r.inputs[k], r.effects[k])
  {
    assert r.Linked(k);
    var w, input := r.worlds[k], r.inputs[k];
    if input.Header? && w.state.info.Contains(input.number) {
      EndInEpoch(w.state, input.number, input.hash, input.answers);
    }
  }

  // ---------- Missed epochs ----------

  /** The window closed and the node did not say that the epoch is attested. */
  predicate Misses(w: World, input: Input, e: Effect) {
    !w.halted && WindowClosed(w.state, input) && !LastAnswer(w.state, e.calls, Ok(true))
  }

  lemma MissInEpoch(s: State, n: U64, hash: Felt, a: Answers)
    requires s.info.Contains(n)
    ensures var e := OnHeaderInEpoch(s, n, hash, a);
            Ticked(e, MissedCount) == One(WindowClosed(s, Header(n, hash, a)) && !LastAnswer(s, e.calls, Ok(true)))
  {
    if s.Started() && s.params.InWindow(n) != Position.After {
      CheckBooks(s.info, s.params, a);
      if s.AttestationSubmitted? {
        var fate := ConfirmBooks(s, n, a);
      }
    } else {
      BooksOf(OnHeaderInEpoch(s, n, hash, a));
    }
  }

  lemma MissStep(env: Env, w: World, input: Input)
    ensures Ticked(EffectOf(env, w, input), MissedCount) == One(Misses(w, input, EffectOf(env, w, input)))
  {
    var e := EffectOf(env, w, input);
    if !w.halted && input.Header? {
      if w.state.info.Contains(input.number) {
        MissInEpoch(w.state, input.number, input.hash, input.answers);
      } else {
        BooksOf(e);
      }
    } else if !input.Event? {
      BooksOf(e);
    }
  }

  /** The number of attestations, started and never confirmed, whose window closed in the first `n` steps. */
  ghost function Missed(r: Run, n: nat): nat
    requires r.Shaped() && n <= |r.inputs|
  {
    if n == 0 then 0 else Missed(r, n - 1) + One(Misses(r.worlds[n - 1], r.inputs[n - 1], r.effects[n - 1]))
  }

  lemma MissedAt(r: Run, k: nat)
    requires r.Valid() && k < |r.inputs|
    ensures Ticked(r.effects[k], MissedCount) == One(Misses(r.worlds[k], r.inputs[k], r.effects[k]))
  {
    assert r.Linked(k);
    MissStep(r.env, r.worlds[k], r.inputs[k]);
  }

  /** The missed count is the number of windows that closed without the node saying that the epoch is attested. */
  lemma {:induction false} MissedCountIsClosedWindows(r: Run, n: nat)
    requires r.Valid() && n <= |r.inputs|
    ensures r.worlds[n].Value(MissedCount) == Missed(r, n)
  {
    if n > 0 {
      MissedCountIsClosedWindows(r, n - 1);
      ValueGrows(r, n - 1, MissedCount);
      MissedAt(r, n - 1);
    }
  }

  // ---------- Failing steps ----------

  /** The last call of the step was answered with an error that the step does not absorb. */
  predicate FatalAnswer(w: World, input: Input, calls: seq<Call>) {
    && calls != []
    && match calls[|calls| - 1]
       case GetAttestationInfo(_, info) => info.Err?
       case GetBlockHash(_, hash) => hash.Err?
       case AttestationDone(_, done) => done.Err? && !WindowClosed(w.state, input)
       case _ => false
  }

  lemma FailureWhileSubmitted(w: World, n: U64, hash: Felt, a: Answers)
    requires w.state.info.Contains(n) && w.state.AttestationSubmitted?
    ensures var e := Confirm(w.state, n, a);
            e.outcome.Kept? <==> FatalAnswer(w, Header(n, hash, a), e.calls)
  {
    CheckEnds(w.state.info, w.state.params, a);
  }

  lemma FailureInEpoch(w: World, n: U64, hash: Felt, a: Answers)
    requires w.state.info.Contains(n)
    ensures var e := OnHeaderInEpoch(w.state, n, hash, a);
            e.outcome.Kept? <==> FatalAnswer(w, Header(n, hash, a), e.calls)
  {
    if w.state.AttestationSubmitted? {
      FailureWhileSubmitted(w, n, hash, a);
    } else if w.state.Attesting? {
      CheckEnds(w.state.info, w.state.params, a);
    }
  }

  /** A step fails, and so is rolled back, exactly when its last call was answered with an error, unless that call
      asked for a transaction's status, sent a transaction, or only settled whether a closed window was missed. */
  lemma StepFailsExactly(r: Run, k: nat)
    requires r.Valid() && k < |r.inputs| && !r.worlds[k].halted
    ensures r.effects[k].outcome.Kept? <==> FatalAnswer(r.worlds[k], r.inputs[k], r.effects[k].calls)
  {
    assert r.Linked(k);
    var w, input := r.worlds[k], r.inputs[k];
    if input.Header? && w.state.info.Contains(input.number) {
      FailureInEpoch(w, input.number, input.hash, input.answers);
    }
  }
}
