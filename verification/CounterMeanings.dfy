/** When the submitted, failure and confirmed counts mean what their documentation says, and when not. */
module CounterMeanings {
  import opened Primitives
  import opened AttestationInfos
  import opened States
  import opened Runs
  import opened Steps
  import opened Accounting
  import opened Transactions
  import opened Conservation
  import opened SampleRuns

  // ---------- Submissions ----------

  /** Every submission went through, failed, or was dropped because of the clock. */
  lemma {:induction false} SendsSplit(calls: seq<Call>)
    ensures Tally(calls, AnySend) == Tally(calls, CountedSend) + Tally(calls, DroppedSend) + Tally(calls, FailedSend)
  {
    if calls != [] {
      SendsSplit(calls[..|calls| - 1]);
    }
  }

  /** The submitted count is the number of submissions that returned a hash, as documented, exactly when the clock
      was sound at each of them. */
  lemma SubmittedExactly(r: Run, n: nat)
    requires r.Valid() && n <= |r.inputs|
    ensures r.worlds[n].Value(SubmittedCount) == Tally(r.worlds[n].log, AnySend) - Tally(r.worlds[n].log, FailedSend)
            <==> Tally(r.worlds[n].log, DroppedSend) == 0
  {
    SendingCounters(r, n);
    SendsSplit(r.worlds[n].log);
  }

  /** The failure count is the number of failed submissions, as documented, exactly when no transaction has been
      reported reverted. */
  lemma FailuresExactly(r: Run, n: nat)
    requires r.Valid() && n <= |r.inputs|
    ensures r.worlds[n].Value(FailureCount) == Tally(r.worlds[n].log, FailedSend)
            <==> Tally(r.worlds[n].log, RevertReport) == 0
  {
    SendingCounters(r, n);
  }

  /** The submissions of a step that asks whether the epoch is done and then sends. */
  lemma TallyOfSend(calls: seq<Call>, mark: Mark)
    requires |calls| == 2 && calls[0].AttestationDone?
    ensures Tally(calls, mark) == One(Bears(calls[1], mark))
  {
    TallyNone(calls[..1], mark);
  }

  /** The counters and the log after a first header that starts the attestation and a second one that sends. */
  lemma AfterFirstSend(r: Run, mark: Mark)
    requires r.Valid() && |r.inputs| >= 2 && r.worlds[1].log == []
    requires |r.effects[1].calls| == 2 && r.effects[1].calls[0].AttestationDone?
    ensures Tally(r.worlds[2].log, mark) == One(Bears(r.effects[1].calls[1], mark))
  {
    TallyGrows(r, 1, mark);
    TallyOfSend(r.effects[1].calls, mark);
  }

  /** A transaction that went out while the clock read before 1970 is not counted as submitted: two headers, in every
      environment. */
  lemma SentYetNotSubmitted(env: Env) returns (r: Run)
    ensures r.Valid() && r.env == env && |r.inputs| == 2 && r.SameSession(0, 2)
    ensures Tally(r.worlds[2].log, AnySend) == 1 && Tally(r.worlds[2].log, FailedSend) == 0
    ensures r.worlds[2].Value(SubmittedCount) == 0
  {
    var info := Sample(1, 0);
    AssignedBlockPlacement(env, info);
    var b := AssignedBlock(env, info);
    r := EveryInputSequenceRuns(env, info, [Header(b, 7, Unanswered(Failed)),
                                            Header(b + 11, 8, Unanswered(Sent(1, false)))]);
    BlockStarts(r);
    SendsInside(r, 1);
    AfterFirstSend(r, AnySend);
    AfterFirstSend(r, FailedSend);
    AfterFirstSend(r, CountedSend);
    SendingCounters(r, 2);
  }

  /** A status report that the live transaction reverted, in a step that then fails. */
  ghost predicate CountsRevert(r: Run, k: nat)
    requires r.Shaped() && k < |r.inputs|
  {
    && r.effects[k].outcome.Kept? && r.State(k).AttestationSubmitted?
    && ReportsRevert(r.effects[k].calls, r.State(k).transactionHash)
  }

  lemma RevertsUnanswered(r: Run, k: nat)
    requires r.Valid() && k < |r.inputs| && !r.worlds[k].halted && r.State(k).AttestationSubmitted?
    requires r.inputs[k].Header? && r.State(k).info.Contains(r.inputs[k].number)
    requires r.State(k).params.InWindow(r.inputs[k].number) == Inside
    requires r.inputs[k].answers == NodeAnswers(Err, Ok(AcceptedOnL2(Reverted)))
    ensures CountsRevert(r, k) && r.State(k + 1) == r.State(k) && !r.worlds[k + 1].halted && !r.Adopts(k)
  {
    assert r.Linked(k);
    CheckAndSubmitCalls(r.State(k).info, r.State(k).params, r.inputs[k].answers);
  }

  lemma TwoRevertsCount(r: Run)
    requires r.Valid() && |r.inputs| == 4 && CountsRevert(r, 2) && CountsRevert(r, 3)
    requires Tally(r.worlds[2].log, AnySend) == 1
    requires r.worlds[2].Value(SubmittedCount) == 1 && r.worlds[2].Value(FailureCount) == 0
    ensures Tally(r.worlds[4].log, AnySend) == 1 && r.worlds[4].Value(SubmittedCount) == 1
    ensures Tally(r.worlds[4].log, FailedSend) == 0 && r.worlds[4].Value(FailureCount) == 2
  {
    RollbackLosesNothing(r, 2);
    RollbackLosesNothing(r, 3);
    SendingCounters(r, 4);
    SendsSplit(r.worlds[4].log);
  }

  lemma OneSubmission(r: Run)
    requires r.Valid() && |r.inputs| >= 2 && r.worlds[1].log == []
    requires |r.effects[1].calls| == 2 && r.effects[1].calls[0].AttestationDone?
    requires Bears(r.effects[1].calls[1], CountedSend)
    ensures Tally(r.worlds[2].log, AnySend) == 1
    ensures r.worlds[2].Value(SubmittedCount) == 1 && r.worlds[2].Value(FailureCount) == 0
  {
    AfterFirstSend(r, AnySend);
    AfterFirstSend(r, CountedSend);
    AfterFirstSend(r, FailedSend);
    AfterFirstSend(r, RevertReport);
    SendingCounters(r, 2);
  }

  /** One transaction, submitted once and reverted once, is two failures when the step that learns of it is rolled
      back and tried again: four headers, in every environment. */
  lemma RevertCountedTwice(env: Env) returns (r: Run)
    ensures r.Valid() && r.env == env && |r.inputs| == 4 && r.SameSession(0, 4)
    ensures Tally(r.worlds[4].log, AnySend) == 1 && r.worlds[4].Value(SubmittedCount) == 1
    ensures Tally(r.worlds[4].log, FailedSend) == 0 && r.worlds[4].Value(FailureCount) == 2
  {
    var info := Sample(1, 0);
    AssignedBlockPlacement(env, info);
    var b := AssignedBlock(env, info);
    var sending := NodeAnswers(Ok(false), Err);
    var reverted := NodeAnswers(Err, Ok(AcceptedOnL2(Reverted)));
    r := EveryInputSequenceRuns(env, info, [Header(b, 7, sending), Header(b + 11, 8, sending),
                                            Header(b + 12, 9, reverted), Header(b + 13, 10, reverted)]);
    BlockStarts(r);
    SendsInside(r, 1);
    OneSubmission(r);
    RevertsUnanswered(r, 2);
    RevertsUnanswered(r, 3);
    TwoRevertsCount(r);
  }

  // ---------- Confirmations ----------

  /** A confirmation event for the watched staker and epoch comes in while a transaction is live. */
  ghost predicate LiveEventAt(r: Run, k: nat)
    requires r.Shaped() && k < |r.inputs|
  {
    !r.worlds[k].halted && r.State(k).AttestationSubmitted? && MatchingEvent(r.State(k), r.inputs[k])
  }

  /** How many did, during the first `n` inputs. */
  ghost function LiveEvents(r: Run, n: nat): nat
    requires r.Shaped() && n <= |r.inputs|
  {
    if n == 0 then 0 else LiveEvents(r, n - 1) + One(LiveEventAt(r, n - 1))
  }

  /** Only the live transaction is asked about, and first. */
  lemma StatusFirst(env: Env, w: World, input: Input)
    ensures var calls := EffectOf(env, w, input).calls;
            && (forall call :: calls != [] && call in calls[1..] ==> !call.AttestationStatus?)
            && (calls != [] && calls[0].AttestationStatus? ==>
                !w.halted && input.Header? && w.state.AttestationSubmitted? && w.state.info.Contains(input.number) &&
                calls[0].transactionHash == w.state.transactionHash)
  {
  }

  lemma TallyOfFirst(calls: seq<Call>, mark: Mark)
    requires forall call :: calls != [] && call in calls[1..] ==> !Bears(call, mark)
    ensures Tally(calls, mark) == One(calls != [] && Bears(calls[0], mark))
  {
    if calls != [] {
      assert calls == [calls[0]] + calls[1..];
      TallyConcat([calls[0]], calls[1..], mark);
      TallyOfOne(calls[0], mark);
      TallyNone(calls[1..], mark);
    }
  }

  lemma SuccessIn(r: Run, k: nat)
    requires r.Valid() && k < |r.inputs|
    ensures Tally(r.effects[k].calls, SuccessReport) ==
            One(r.State(k).AttestationSubmitted? && ReportsSuccess(r.effects[k].calls, r.State(k).transactionHash))
    ensures LiveEventAt(r, k) ==> Tally(r.effects[k].calls, SuccessReport) == 0
  {
    assert r.Linked(k);
    StatusFirst(r.env, r.worlds[k], r.inputs[k]);
    TallyOfFirst(r.effects[k].calls, SuccessReport);
  }

  /** A live transaction is confirmed by a report of success or by an event. */
  lemma ConfirmedBy(r: Run, k: nat)
    requires r.Valid() && k < |r.inputs|
    ensures One(FateAt(r, k) == Confirmed) == Tally(r.effects[k].calls, SuccessReport) + One(LiveEventAt(r, k))
  {
    SuccessIn(r, k);
    assert r.Linked(k);
  }

  lemma ConfirmedGrows(r: Run, k: nat)
    requires r.Valid() && k < |r.inputs|
    ensures r.worlds[k + 1].Value(ConfirmedCount) - r.worlds[k].Value(ConfirmedCount) ==
            Tally(r.worlds[k + 1].log, SuccessReport) - Tally(r.worlds[k].log, SuccessReport) + One(LiveEventAt(r, k))
  {
    ValueGrows(r, k, ConfirmedCount);
    TallyGrows(r, k, SuccessReport);
    BooksAt(r, k);
    ConfirmedBy(r, k);
  }

  /** What the confirmed count means: the reports that a transaction succeeded, and the matching events that came
      while one was live, whoever's attestation they announce. So it is the number of transactions reported as
      successful exactly when there was no such event. */
  lemma {:induction false} ConfirmedExactly(r: Run, n: nat)
    requires r.Valid() && n <= |r.inputs|
    ensures r.worlds[n].Value(ConfirmedCount) == Tally(r.worlds[n].log, SuccessReport) + LiveEvents(r, n)
    ensures r.worlds[n].Value(ConfirmedCount) == Tally(r.worlds[n].log, SuccessReport) <==> LiveEvents(r, n) == 0
  {
    if n > 0 {
      ConfirmedExactly(r, n - 1);
      ConfirmedGrows(r, n - 1);
    }
  }

  lemma EventWhileLive(r: Run, k: nat)
    requires r.Valid() && k < |r.inputs| && LiveEventAt(r, k)
    ensures r.worlds[k + 1].log == r.worlds[k].log && !r.Adopts(k)
    ensures LiveEvents(r, k + 1) == LiveEvents(r, k) + 1
  {
    assert r.Linked(k);
  }

  lemma NoEventsYet(r: Run, n: nat)
    requires r.Shaped() && n <= |r.inputs| && forall k: nat :: k < n ==> r.inputs[k].Header?
    ensures LiveEvents(r, n) == 0
  {
  }

  lemma RevertThenEvent(r: Run)
    requires r.Valid() && |r.inputs| == 4 && CountsRevert(r, 2) && LiveEventAt(r, 3)
    requires forall k: nat :: k < 3 ==> r.inputs[k].Header?
    requires Tally(r.worlds[2].log, AnySend) == 1 && Tally(r.worlds[2].log, SuccessReport) == 0
    requires r.worlds[2].Value(SubmittedCount) == 1
    ensures Tally(r.worlds[4].log, AnySend) == 1 && Tally(r.worlds[4].log, SuccessReport) == 0
    ensures r.worlds[4].Value(SubmittedCount) == 1 && r.worlds[4].Value(ConfirmedCount) == 1
    ensures !r.Adopts(3)
  {
    RollbackLosesNothing(r, 2);
    SuccessIn(r, 2);
    TallyGrows(r, 2, SuccessReport);
    NoEventsYet(r, 3);
    EventWhileLive(r, 3);
    ConfirmedExactly(r, 4);
    SendingCounters(r, 3);
    SendingCounters(r, 4);
  }

  /** A submission is counted as confirmed though the node reported it reverted and never reported another: three
      headers and a confirmation event, in every environment. */
  lemma ConfirmedThoughReverted(env: Env) returns (r: Run)
    ensures r.Valid() && r.env == env && |r.inputs| == 4 && r.SameSession(0, 4)
    ensures Tally(r.worlds[4].log, AnySend) == 1 && CountsRevert(r, 2)
    ensures Tally(r.worlds[4].log, SuccessReport) == 0
    ensures r.worlds[4].Value(SubmittedCount) == 1 && r.worlds[4].Value(ConfirmedCount) == 1
  {
    var info := Sample(1, 0);
    AssignedBlockPlacement(env, info);
    var b := AssignedBlock(env, info);
    var sending := NodeAnswers(Ok(false), Err);
    var reverted := NodeAnswers(Err, Ok(AcceptedOnL2(Reverted)));
    r := EveryInputSequenceRuns(env, info, [Header(b, 7, sending), Header(b + 11, 8, sending),
                                            Header(b + 12, 9, reverted), Event(1, 1)]);
    BlockStarts(r);
    SendsInside(r, 1);
    OneSubmission(r);
    AfterFirstSend(r, SuccessReport);
    RevertsUnanswered(r, 2);
    RevertThenEvent(r);
  }
}
