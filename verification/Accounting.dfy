/** What the counters mean: each is a count of things that can be read off the record of the run. */
module Accounting {
  import opened Primitives
  import opened AttestationInfos
  import opened States
  import opened Runs
  import opened Steps

  /** The kinds of calls that the counters answer for. */
  datatype Mark = AnySend | CountedSend | DroppedSend | FailedSend | RevertReport | SuccessReport

  predicate Bears(call: Call, mark: Mark) {
    match mark
    case AnySend => call.Attest?
    case CountedSend => call.Attest? && call.sending.Sent? && call.sending.clockOk
    case DroppedSend => call.Attest? && call.sending.Sent? && !call.sending.clockOk
    case FailedSend => call.Attest? && call.sending.Failed?
    case RevertReport => call.AttestationStatus? && call.status.Ok? && call.status.value.AcceptedReverted()
    case SuccessReport => call.AttestationStatus? && call.status.Ok? && call.status.value.AcceptedSucceeded()
  }

  /** How many calls in a log bear a mark. */
  function Tally(calls: seq<Call>, mark: Mark): nat {
    if calls == [] then 0
    else Tally(calls[..|calls| - 1], mark) + if Bears(calls[|calls| - 1], mark) then 1 else 0
  }

  lemma {:induction false} TallyConcat(a: seq<Call>, b: seq<Call>, mark: Mark)
    ensures Tally(a + b, mark) == Tally(a, mark) + Tally(b, mark)
  {
    if b == [] {
      assert a + b == a;
    } else {
      assert (a + b)[..|a + b| - 1] == a + b[..|b| - 1];
      TallyConcat(a, b[..|b| - 1], mark);
    }
  }

  lemma {:induction false} TallyNone(calls: seq<Call>, mark: Mark)
    requires forall call :: call in calls ==> !Bears(call, mark)
    ensures Tally(calls, mark) == 0
  {
    if calls != [] {
      assert calls[|calls| - 1] in calls;
      TallyNone(calls[..|calls| - 1], mark);
    }
  }

  /** The number of increments of a counter in one step. */
  function Ticked(e: Effect, counter: Counter): nat {
    multiset(e.ticks)[counter]
  }

  lemma TallyOfOne(call: Call, mark: Mark)
    ensures Tally([call], mark) == if Bears(call, mark) then 1 else 0
  {
    assert [call][..0] == [];
  }

  /** The increments of the two sending counters agree with the calls of the step. */
  predicate Accounted(e: Effect) {
    && Ticked(e, SubmittedCount) == Tally(e.calls, CountedSend)
    && Ticked(e, FailureCount) == Tally(e.calls, FailedSend) + Tally(e.calls, RevertReport)
  }

  lemma AccountedAfter(e: Effect, callsBefore: seq<Call>, ticksBefore: seq<Counter>)
    requires Accounted(e) && Accounted(Effect(Kept, callsBefore, ticksBefore))
    ensures Accounted(e.After(callsBefore, ticksBefore))
  {
    TallyConcat(callsBefore, e.calls, CountedSend);
    TallyConcat(callsBefore, e.calls, FailedSend);
    TallyConcat(callsBefore, e.calls, RevertReport);
  }

  lemma AccountedOne(e: Effect)
    requires |e.calls| <= 1
    requires var call := if e.calls == [] then GetBlockHash(0, Err) else e.calls[0];
             && Ticked(e, SubmittedCount) == (if Bears(call, CountedSend) then 1 else 0)
             && Ticked(e, FailureCount) == (if Bears(call, FailedSend) || Bears(call, RevertReport) then 1 else 0)
    ensures Accounted(e)
  {
    if e.calls != [] {
      assert e.calls == [e.calls[0]];
      TallyOfOne(e.calls[0], CountedSend);
      TallyOfOne(e.calls[0], FailedSend);
      TallyOfOne(e.calls[0], RevertReport);
    }
  }

  lemma AccountedCheck(info: AttestationInfo, params: AttestationParams, a: Answers)
    ensures Accounted(CheckAndSubmit(info, params, a))
  {
    var asked := [AttestationDone(info.staker, a.done)];
    AccountedOne(Effect(Kept, asked, []));
    AccountedOne(Submit(info, params, a));
    AccountedAfter(Submit(info, params, a), asked, []);
    AccountedOne(Effect(Done(WaitingForNextEpoch(info)), asked, []));
  }

  lemma AccountedConfirm(s: State, n: U64, a: Answers)
    requires s.AttestationSubmitted?
    ensures Accounted(Confirm(s, n, a))
  {
    var e := Confirm(s, n, a);
    if |e.calls| <= 1 && !(a.status.Ok? && a.status.value.AcceptedReverted()) {
      AccountedOne(e);
    } else if s.params.InWindow(n) == Position.After {
      AccountedOne(e);
    } else {
      var asked := [AttestationStatus(s.transactionHash, a.status)];
      AccountedCheck(s.info, s.params, a);
      AccountedOne(Effect(Kept, asked, [FailureCount]));
      AccountedAfter(CheckAndSubmit(s.info, s.params, a), asked, [FailureCount]);
    }
  }

  lemma AccountedInEpoch(s: State, n: U64, hash: Felt, a: Answers)
    ensures Accounted(OnHeaderInEpoch(s, n, hash, a))
  {
    if s.AttestationSubmitted? {
      AccountedConfirm(s, n, a);
    } else if s.Attesting? && s.params.InWindow(n) == Inside {
      AccountedCheck(s.info, s.params, a);
    } else {
      AccountedOne(OnHeaderInEpoch(s, n, hash, a));
    }
  }

  lemma AccountedNothing(e: Effect)
    requires e.ticks == [] && forall call :: call in e.calls ==> call.GetAttestationInfo? || call.GetBlockHash?
    ensures Accounted(e)
  {
    TallyNone(e.calls, CountedSend);
    TallyNone(e.calls, FailedSend);
    TallyNone(e.calls, RevertReport);
  }

  lemma AccountedElsewhere(env: Env, w: World, input: Input)
    requires w.halted || !input.Header?
    ensures Accounted(EffectOf(env, w, input))
  {
    AccountedOne(EffectOf(env, w, input));
  }

  lemma AccountedStep(env: Env, w: World, input: Input)
    ensures Accounted(EffectOf(env, w, input))
  {
    var e := EffectOf(env, w, input);
    if w.halted || !input.Header? {
      AccountedElsewhere(env, w, input);
    } else if w.state.info.Contains(input.number) {
      AccountedInEpoch(w.state, input.number, input.hash, input.answers);
    } else {
      OutsideStep(env, w, input);
      AccountedNothing(e);
    }
  }

  lemma AccountedAt(r: Run, k: nat)
    requires r.Valid() && k < |r.inputs|
    ensures Accounted(r.effects[k])
  {
    assert r.Linked(k);
    AccountedStep(r.env, r.worlds[k], r.inputs[k]);
  }

  /** A step appends its calls and its increments. */
  lemma LogsGrow(r: Run, k: nat)
    requires r.Valid() && k < |r.inputs|
    ensures r.worlds[k + 1].log == r.worlds[k].log + r.effects[k].calls
    ensures r.worlds[k + 1].ticks == r.worlds[k].ticks + r.effects[k].ticks
  {
    assert r.Linked(k);
  }

  lemma ValueGrows(r: Run, k: nat, counter: Counter)
    requires r.Valid() && k < |r.inputs|
    ensures r.worlds[k + 1].Value(counter) == r.worlds[k].Value(counter) + Ticked(r.effects[k], counter)
  {
    LogsGrow(r, k);
  }

  lemma TallyGrows(r: Run, k: nat, mark: Mark)
    requires r.Valid() && k < |r.inputs|
    ensures Tally(r.worlds[k + 1].log, mark) == Tally(r.worlds[k].log, mark) + Tally(r.effects[k].calls, mark)
  {
    LogsGrow(r, k);
    TallyConcat(r.worlds[k].log, r.effects[k].calls, mark);
  }

  /** Over every run, rolled-back steps included: the submitted count is the number of `attest` calls that
      returned a hash under a sound clock, and the failure count is the number of `attest` calls that failed plus
      the number of times a transaction was reported reverted. */
  lemma {:induction false} SendingCounters(r: Run, n: nat)
    requires r.Valid() && n <= |r.inputs|
    ensures r.worlds[n].Value(SubmittedCount) == Tally(r.worlds[n].log, CountedSend)
    ensures r.worlds[n].Value(FailureCount) ==
            Tally(r.worlds[n].log, FailedSend) + Tally(r.worlds[n].log, RevertReport)
  {
    if n > 0 {
      SendingCounters(r, n - 1);
      AccountedAt(r, n - 1);
      ValueGrows(r, n - 1, SubmittedCount);
      ValueGrows(r, n - 1, FailureCount);
      TallyGrows(r, n - 1, CountedSend);
      TallyGrows(r, n - 1, FailedSend);
      TallyGrows(r, n - 1, RevertReport);
    }
  }
}
