/** How many transactions a session can have, and what becomes of them. */
module Transactions {
  import opened Primitives
  import opened AttestationInfos
  import opened States
  import opened Runs
  import opened Steps
  import opened Reachability
  import opened Attestations
  import opened Sessions
  import opened Accounting

  // ---------- At most one live transaction ----------

  predicate Live(s: State, tx: Felt) {
    s.AttestationSubmitted? && s.transactionHash == tx
  }

  /** Nothing but a reported revert or the end of the attestation takes a live transaction's place. */
  lemma LiveStep(env: Env, w: World, input: Input)
    requires w.state.AttestationSubmitted? && !Adoption(EffectOf(env, w, input))
    ensures var next := Next(env, w, input).state;
            || next == w.state || next.WaitingForNextEpoch?
            || ReportsRevert(EffectOf(env, w, input).calls, w.state.transactionHash)
  {
  }

  /** Only a live transaction is asked about. */
  lemma StatusStep(env: Env, w: World, input: Input, tx: Felt)
    requires ReportsRevert(EffectOf(env, w, input).calls, tx)
    ensures Live(w.state, tx)
  {
  }

  lemma {:induction false} LiveUntilRevert(r: Run, i: nat, j: nat, tx: Felt)
    requires r.Valid() && i <= j <= |r.inputs| && r.SameSession(i, j)
    requires Live(r.State(i), tx)
    ensures || Live(r.State(j), tx) || r.State(j).WaitingForNextEpoch?
            || exists k: nat :: i <= k < j && ReportsRevert(r.effects[k].calls, tx)
  {
    if i < j {
      LiveUntilRevert(r, i, j - 1, tx);
      assert r.Linked(j - 1) && !r.Adopts(j - 1);
      if Live(r.State(j - 1), tx) {
        LiveStep(r.env, r.worlds[j - 1], r.inputs[j - 1]);
      } else if r.State(j - 1).WaitingForNextEpoch? {
        SessionStep(r.env, r.worlds[j - 1], r.inputs[j - 1]);
      }
    }
  }

  /** Between inputs `i` and `j`, some step saw `tx` reverted. */
  ghost predicate RevertedBetween(r: Run, i: nat, j: nat, tx: Felt)
    requires r.Shaped() && j < |r.inputs|
  {
    exists k: nat :: i < k <= j && ReportsRevert(r.effects[k].calls, tx)
  }

  /** At most one live transaction. Between two `attest` calls of a session, the first of which returned a hash
      under a sound clock, the node reported the first transaction reverted. */
  lemma AtMostOneLive(r: Run, i: nat, j: nat, first: Call, second: Call)
    requires r.Valid() && i < j < |r.inputs| && r.SameSession(i + 1, j)
    requires Sends(r, i, first) && Sends(r, j, second)
    requires first.sending.Sent? && first.sending.clockOk
    ensures RevertedBetween(r, i, j, first.sending.transactionHash)
  {
    var tx := first.sending.transactionHash;
    SendingStep(r, i, first);
    LiveUntilRevert(r, i + 1, j, tx);
    SendingStep(r, j, second);
    if Live(r.State(j), tx) {
      assert ReportsRevert(r.effects[j].calls, tx);
    }
  }

  lemma QuietStep(env: Env, w: World, input: Input)
    requires w.state.Attesting? || w.state.WaitingForNextEpoch?
    requires !Adoption(EffectOf(env, w, input))
    ensures var e, next := EffectOf(env, w, input), Next(env, w, input).state;
            next.Attesting? || next.WaitingForNextEpoch? || EndsWithSending(e.calls, next.transactionHash)
  {
  }

  /** No `attest` call between inputs `i` and `j` returned a hash. */
  ghost predicate NoHashBetween(r: Run, i: nat, j: nat)
    requires r.Shaped() && j <= |r.inputs|
  {
    forall k: nat, call :: i < k < j && Sends(r, k, call) ==> call.sending.Failed?
  }

  lemma {:induction false} QuietAfterClockFailure(r: Run, i: nat, j: nat)
    requires r.Valid() && i < j <= |r.inputs| && r.SameSession(i + 1, j) && NoHashBetween(r, i, j)
    requires r.State(i + 1).Attesting?
    ensures r.State(j).Attesting? || r.State(j).WaitingForNextEpoch?
  {
    if i + 1 < j {
      QuietAfterClockFailure(r, i, j - 1);
      assert r.Linked(j - 1) && !r.Adopts(j - 1);
      QuietStep(r.env, r.worlds[j - 1], r.inputs[j - 1]);
      var calls := r.effects[j - 1].calls;
      assert calls != [] ==> calls[|calls| - 1] in calls;
      assert calls != [] && calls[|calls| - 1].Attest? ==> Sends(r, j - 1, calls[|calls| - 1]);
    }
  }

  /** The clock is exactly what the guarantee hangs on: between two successive `attest` calls of a session that
      both returned a hash, the first transaction was seen reverted if and only if the clock was sound when it
      went out. With a clock before 1970 the program forgets the transaction it has sent. */
  lemma OneLiveExactlyUnderSoundClock(r: Run, i: nat, j: nat, first: Call, second: Call)
    requires r.Valid() && i < j < |r.inputs| && r.SameSession(i + 1, j) && NoHashBetween(r, i, j)
    requires Sends(r, i, first) && Sends(r, j, second)
    requires first.sending.Sent? && second.sending.Sent?
    ensures RevertedBetween(r, i, j, first.sending.transactionHash) <==> first.sending.clockOk
  {
    var tx := first.sending.transactionHash;
    if first.sending.clockOk {
      AtMostOneLive(r, i, j, first, second);
    } else {
      SendingStep(r, i, first);
      forall k: nat | i < k <= j ensures !ReportsRevert(r.effects[k].calls, tx) {
        QuietAfterClockFailure(r, i, k);
        assert r.Linked(k);
        if ReportsRevert(r.effects[k].calls, tx) {
          StatusStep(r.env, r.worlds[k], r.inputs[k], tx);
        }
      }
    }
  }

  /** It does fail: three headers, in every environment, end with two transactions out and nobody asking after
      the first. */
  lemma ClockFailureForgets(env: Env) returns (r: Run)
    ensures r.Valid() && |r.inputs| == 3 && r.SameSession(2, 2)
    ensures exists first, second ::
              Sends(r, 1, first) && first.sending == Sent(1, false) &&
              Sends(r, 2, second) && second.sending == Sent(2, true)
    ensures !RevertedBetween(r, 1, 2, 1)
  {
    var info := AttestationInfo(1, 2, 0, 40, 1, 0, 20);
    AssignedBlockPlacement(env, info);
    var b := AssignedBlock(env, info);
    var inputs := [Header(b, 7, Unanswered(Failed)),
                   Header(b + 11, 8, Unanswered(Sent(1, false))),
                   Header(b + 12, 9, Unanswered(Sent(2, true)))];
    r := EveryInputSequenceRuns(env, info, inputs);
    assert r.Linked(0);
    assert r.State(1) == Attesting(info, ParamsFor(info, b, 7));
    SendsInside(r, 1);
    SendsInside(r, 2);
  }

  function Unanswered(sending: Sending): Answers {
    Answers(Err, Err, Ok(false), sending, Err)
  }

  /** A header inside the window, while attesting and with nothing done, sends. */
  lemma SendsInside(r: Run, i: nat)
    requires r.Valid() && i < |r.inputs| && !r.worlds[i].halted
    requires r.inputs[i].Header? && r.inputs[i].answers.done == Ok(false)
    requires r.State(i).Attesting? && r.State(i).info.Contains(r.inputs[i].number)
    requires r.State(i).params.InWindow(r.inputs[i].number) == Inside
    ensures var s, sending := r.State(i), r.inputs[i].answers.attest;
            && r.effects[i].calls ==
               [AttestationDone(s.info.staker, Ok(false)), Attest(s.info.operational, s.params.blockHash, sending)]
            && Sends(r, i, r.effects[i].calls[1])
            && r.State(i + 1) == AfterSending(s, sending) && !r.worlds[i + 1].halted && !r.Adopts(i)
    ensures forall tx :: !ReportsRevert(r.effects[i].calls, tx)
  {
    assert r.Linked(i);
    var s := r.State(i);
    CheckAndSubmitCalls(s.info, s.params, r.inputs[i].answers);
    assert r.effects[i].calls[1] in r.effects[i].calls;
  }

  // ---------- Submission bound ----------

  /** In the session of world `hi`, the header numbers before it strictly increase. */
  ghost predicate HeadersIncreasing(r: Run, hi: nat)
    requires r.Shaped() && hi <= |r.inputs|
  {
    forall p: nat, q: nat ::
      p < q < hi && r.inputs[p].Header? && r.inputs[q].Header? && r.SameSession(p + 1, hi) ==>
      r.inputs[p].number < r.inputs[q].number
  }

  /** A step makes at most one `attest` call. */
  lemma OneSendPerStep(r: Run, k: nat)
    requires r.Valid() && k < |r.inputs|
    ensures Tally(r.effects[k].calls, AnySend) <= 1
    ensures Tally(r.effects[k].calls, AnySend) == 1 ==> exists call :: Sends(r, k, call)
  {
    var calls := r.effects[k].calls;
    if call :| Sends(r, k, call) {
      SendingStep(r, k, call);
      TallyNone(calls[..|calls| - 1], AnySend);
    } else {
      forall call | call in calls ensures !Bears(call, AnySend) {
        assert !Sends(r, k, call);
      }
      TallyNone(calls, AnySend);
    }
  }

  function Max(a: int, b: int): int {
    if a < b then b else a
  }

  /** Counting the `attest` calls of a stretch of a session whose headers are all below `top`. */
  lemma {:induction false} SendsBelow(r: Run, lo: nat, hi: nat, top: int)
    requires r.Valid() && lo <= hi <= |r.inputs| && r.SameSession(lo, hi) && HeadersIncreasing(r, hi)
    requires r.State(lo).info.Sane()
    requires forall k: nat, call ::
               lo <= k < hi && Sends(r, k, call) ==> r.inputs[k].Header? && r.inputs[k].number < top
    ensures r.State(lo).info.Assignable()
    ensures Tally(r.worlds[hi].log, AnySend) - Tally(r.worlds[lo].log, AnySend)
            <= Max(0, top - (Block(r.env, r.State(lo)) + MIN_ATTESTATION_WINDOW))
  {
    ReachableCoherent(r, lo);
    if lo < hi {
      var k := hi - 1;
      TallyGrows(r, k, AnySend);
      OneSendPerStep(r, k);
      if Tally(r.effects[k].calls, AnySend) == 1 {
        var call :| Sends(r, k, call);
        SessionKeeps(r, lo, k);
        NonDecreasingWhenIncreasing(r, k);
        NeverEarly(r, k, call);
        forall p: nat, c | lo <= p < k && Sends(r, p, c)
          ensures r.inputs[p].Header? && r.inputs[p].number < r.inputs[k].number
        {
          assert !r.Adopts(k);
          assert r.SameSession(p + 1, k + 1);
        }
        SendsBelow(r, lo, k, r.inputs[k].number);
      } else {
        SendsBelow(r, lo, k, top);
      }
    }
  }

  lemma NonDecreasingWhenIncreasing(r: Run, k: nat)
    requires r.Shaped() && k < |r.inputs| && HeadersIncreasing(r, k + 1)
    ensures HeadersNonDecreasing(r, k)
  {
  }

  /** Submission bound. While its headers strictly increase, a session makes at most max(0, w - 11) `attest` calls,
      whatever fails, reverts or is rolled back. */
  lemma SubmissionBound(r: Run, lo: nat, hi: nat)
    requires r.Valid() && lo <= hi <= |r.inputs| && r.SameSession(lo, hi) && HeadersIncreasing(r, hi)
    requires r.State(lo).info.Sane()
    ensures Tally(r.worlds[hi].log, AnySend) - Tally(r.worlds[lo].log, AnySend)
            <= Max(0, r.State(lo).info.window - MIN_ATTESTATION_WINDOW)
  {
    ReachableCoherent(r, lo);
    var top := Block(r.env, r.State(lo)) + r.State(lo).info.window;
    forall k: nat, call | lo <= k < hi && Sends(r, k, call)
      ensures r.inputs[k].Header? && r.inputs[k].number < top
    {
      SessionKeeps(r, lo, k);
      WindowSafety(r, k, call);
    }
    SendsBelow(r, lo, hi, top);
  }

  /** How often a stretch of the run led back from a submitted attestation. */
  ghost function BackwardEdges(r: Run, lo: nat, hi: nat): nat
    requires r.Shaped() && lo <= hi <= |r.inputs|
  {
    if lo == hi then 0 else BackwardEdges(r, lo, hi - 1) + if BackwardEdge(r, hi - 1) then 1 else 0
  }

  ghost function LiveCount(r: Run, i: nat): nat
    requires r.Shaped() && i <= |r.inputs|
  {
    if r.State(i).AttestationSubmitted? then 1 else 0
  }

  /** A step that leads back, and a step that makes a transaction live, makes an `attest` call. */
  lemma EdgeStep(r: Run, k: nat)
    requires r.Valid() && k < |r.inputs|
    ensures 2 * (if BackwardEdge(r, k) then 1 else 0) + LiveCount(r, k + 1) <=
            Tally(r.effects[k].calls, AnySend) + LiveCount(r, k)
  {
    if r.State(k + 1).AttestationSubmitted? {
      LiveBefore(r, k);
    }
  }

  /** Every way back costs two `attest` calls: one for the transaction that reverted and the failed one. */
  lemma {:induction false} BackwardEdgesCostSends(r: Run, lo: nat, hi: nat)
    requires r.Valid() && lo <= hi <= |r.inputs|
    ensures 2 * BackwardEdges(r, lo, hi) + LiveCount(r, hi) <=
            Tally(r.worlds[hi].log, AnySend) - Tally(r.worlds[lo].log, AnySend) + LiveCount(r, lo)
  {
    if lo < hi {
      BackwardEdgesCostSends(r, lo, hi - 1);
      EdgeStep(r, hi - 1);
      TallyGrows(r, hi - 1, AnySend);
    }
  }

  /** While its headers strictly increase, a session goes back at most (w - 11) / 2 times; a stretch that begins
      with a live transaction can go back for that one too. */
  lemma BackwardEdgeBound(r: Run, lo: nat, hi: nat)
    requires r.Valid() && lo <= hi <= |r.inputs| && r.SameSession(lo, hi) && HeadersIncreasing(r, hi)
    requires r.State(lo).info.Sane()
    ensures 2 * BackwardEdges(r, lo, hi) <=
            Max(0, r.State(lo).info.window - MIN_ATTESTATION_WINDOW) + LiveCount(r, lo)
  {
    SubmissionBound(r, lo, hi);
    BackwardEdgesCostSends(r, lo, hi);
  }

  /** The node takes the transaction or not, and reports one that was taken as reverted. */
  function Busy(takes: bool): Answers {
    Answers(Err, Err, Ok(false), if takes then Sent(1, true) else Failed, Ok(AcceptedOnL2(Reverted)))
  }

  predicate Odd(i: nat) {
    i % 2 == 1
  }

  /** The header of block b, then those of the first `n` blocks of its window. Every other transaction is taken. */
  function BusyHeaders(b: U64, n: nat): seq<Input>
    requires b + MIN_ATTESTATION_WINDOW + n < U64_LIMIT
  {
    seq(n + 1, i requires 0 <= i <= n =>
      Header(if i == 0 then b else b + MIN_ATTESTATION_WINDOW + i - 1, 0, Busy(Odd(i))))
  }

  /** After header `k` the run is attesting or has sent, depending on the parity, and every header since b sent. */
  ghost predicate BusyAt(r: Run, b: U64, k: nat)
    requires r.Shaped() && k < |r.inputs|
  {
    var attesting := Attesting(r.first, ParamsFor(r.first, b, 0));
    && r.State(k + 1) == AfterSending(attesting, Busy(Odd(k)).attest)
    && !r.worlds[k + 1].halted && r.SameSession(0, k + 1)
    && Tally(r.worlds[k + 1].log, AnySend) == k
    && 2 * BackwardEdges(r, 0, k + 1) + LiveCount(r, k + 1) == k
  }

  lemma BusyStart(r: Run, b: U64, n: nat)
    requires r.Valid() && r.first.Sane() && b == AssignedBlock(r.env, r.first)
    requires b + MIN_ATTESTATION_WINDOW + n < U64_LIMIT && r.inputs == BusyHeaders(b, n)
    ensures BusyAt(r, b, 0)
  {
    AssignedBlockPlacement(r.env, r.first);
    assert r.Linked(0);
    assert r.worlds[1].log == [];
    assert BackwardEdges(r, 0, 0) == 0;
  }

  /** The live transaction reverted and its replacement fails. */
  lemma ReplacesInVain(r: Run, k: nat)
    requires r.Valid() && k < |r.inputs| && !r.worlds[k].halted
    requires r.inputs[k].Header? && r.inputs[k].answers.done == Ok(false) && r.inputs[k].answers.attest == Failed
    requires r.inputs[k].answers.status == Ok(AcceptedOnL2(Reverted))
    requires r.State(k).AttestationSubmitted? && r.State(k).info.Contains(r.inputs[k].number)
    requires r.State(k).params.InWindow(r.inputs[k].number) == Inside
    ensures BackwardEdge(r, k) && !r.worlds[k + 1].halted && !r.Adopts(k)
  {
    assert r.Linked(k);
    CheckAndSubmitCalls(r.State(k).info, r.State(k).params, r.inputs[k].answers);
  }

  lemma BusyHeader(env: Env, info: AttestationInfo, b: U64, n: nat, k: nat)
    requires info.Sane() && b == AssignedBlock(env, info) && 0 < k <= n
    requires MIN_ATTESTATION_WINDOW + n <= info.window && b + MIN_ATTESTATION_WINDOW + n < U64_LIMIT
    ensures var input := BusyHeaders(b, n)[k];
            && input.Header? && input.answers == Busy(Odd(k))
            && info.Contains(input.number) && ParamsFor(info, b, 0).InWindow(input.number) == Inside
  {
    AssignedBlockPlacement(env, info);
  }

  /** One step of the run: it sends, and the transaction is live or has just been lost again. */
  lemma BusyMove(r: Run, b: U64, k: nat, takes: bool)
    requires r.Valid() && k < |r.inputs| && !r.worlds[k].halted
    requires r.inputs[k].Header? && r.inputs[k].answers == Busy(takes) && r.first.Contains(r.inputs[k].number)
    requires ParamsFor(r.first, b, 0).InWindow(r.inputs[k].number) == Inside
    requires r.State(k) == AfterSending(Attesting(r.first, ParamsFor(r.first, b, 0)), Busy(!takes).attest)
    ensures r.State(k + 1) == AfterSending(Attesting(r.first, ParamsFor(r.first, b, 0)), Busy(takes).attest)
    ensures !r.worlds[k + 1].halted && !r.Adopts(k)
    ensures !takes ==> BackwardEdge(r, k)
  {
    if takes {
      SendsInside(r, k);
    } else {
      ReplacesInVain(r, k);
    }
  }

  lemma BusyCounts(r: Run, k: nat)
    requires r.Valid() && k < |r.inputs|
    requires BackwardEdge(r, k) || (!r.State(k).AttestationSubmitted? && r.State(k + 1).AttestationSubmitted?)
    ensures Tally(r.worlds[k + 1].log, AnySend) == Tally(r.worlds[k].log, AnySend) + 1
    ensures 2 * BackwardEdges(r, 0, k + 1) + LiveCount(r, k + 1) == 2 * BackwardEdges(r, 0, k) + LiveCount(r, k) + 1
  {
    EdgeStep(r, k);
    OneSendPerStep(r, k);
    TallyGrows(r, k, AnySend);
  }

  lemma BusyNext(r: Run, b: U64, k: nat)
    requires r.Valid() && 0 < k < |r.inputs| && BusyAt(r, b, k - 1)
    requires r.inputs[k].Header? && r.inputs[k].answers == Busy(Odd(k)) && r.first.Contains(r.inputs[k].number)
    requires ParamsFor(r.first, b, 0).InWindow(r.inputs[k].number) == Inside
    ensures BusyAt(r, b, k)
  {
    BusyMove(r, b, k, Odd(k));
    BusyCounts(r, k);
  }

  lemma BusyStep(r: Run, b: U64, n: nat, k: nat)
    requires r.Valid() && r.first.Sane() && b == AssignedBlock(r.env, r.first)
    requires MIN_ATTESTATION_WINDOW + n <= r.first.window && b + MIN_ATTESTATION_WINDOW + n < U64_LIMIT
    requires r.inputs == BusyHeaders(b, n) && 0 < k <= n && BusyAt(r, b, k - 1)
    ensures BusyAt(r, b, k)
  {
    BusyHeader(r.env, r.first, b, n, k);
    BusyNext(r, b, k);
  }

  lemma {:induction false} BusyRun(r: Run, b: U64, n: nat, k: nat)
    requires r.Valid() && r.first.Sane() && b == AssignedBlock(r.env, r.first)
    requires MIN_ATTESTATION_WINDOW + n <= r.first.window && b + MIN_ATTESTATION_WINDOW + n < U64_LIMIT
    requires r.inputs == BusyHeaders(b, n) && k <= n
    ensures BusyAt(r, b, k)
  {
    if k == 0 {
      BusyStart(r, b, n);
    } else {
      BusyRun(r, b, n, k - 1);
      BusyStep(r, b, n, k);
    }
  }

  /** Both bounds are reached. For every environment and every sane info with a window of more than eleven blocks
      there is a run of one session, with increasing headers, that makes exactly w - 11 `attest` calls and goes back
      (w - 11) / 2 times. */
  lemma BoundsAreReached(env: Env, info: AttestationInfo) returns (r: Run)
    requires info.Sane() && info.window > MIN_ATTESTATION_WINDOW
    ensures r.Valid() && r.env == env && r.first == info
    ensures r.SameSession(0, |r.inputs|) && HeadersIncreasing(r, |r.inputs|)
    ensures Tally(r.worlds[|r.inputs|].log, AnySend) == info.window - MIN_ATTESTATION_WINDOW
    ensures BackwardEdges(r, 0, |r.inputs|) == (info.window - MIN_ATTESTATION_WINDOW) / 2
  {
    AssignedBlockPlacement(env, info);
    var b, n := AssignedBlock(env, info), info.window - MIN_ATTESTATION_WINDOW;
    r := EveryInputSequenceRuns(env, info, BusyHeaders(b, n));
    BusyRun(r, b, n, n);
  }

  // ---------- Rollback ----------

  predicate HarmlessFailure(s: State, e: Effect) {
    && (forall call :: call in e.calls ==> !call.Attest?)
    && (e.ticks == [] ||
        (e.ticks == [FailureCount] && s.AttestationSubmitted? && ReportsRevert(e.calls, s.transactionHash)))
  }

  lemma KeptInEpoch(s: State, n: U64, hash: Felt, a: Answers)
    requires OnHeaderInEpoch(s, n, hash, a).outcome.Kept?
    ensures HarmlessFailure(s, OnHeaderInEpoch(s, n, hash, a))
  {
    if call :| call in OnHeaderInEpoch(s, n, hash, a).calls && call.Attest? {
      AttestInEpoch(s, n, hash, a, call);
    }
  }

  lemma KeptStep(env: Env, w: World, input: Input)
    requires EffectOf(env, w, input).outcome.Kept?
    ensures Next(env, w, input).state == w.state
    ensures HarmlessFailure(w.state, EffectOf(env, w, input))
  {
    if input.Header? {
      if w.state.info.Contains(input.number) {
        KeptInEpoch(w.state, input.number, input.hash, input.answers);
      } else if input.answers.info.Ok? && input.answers.info.value.Assignable() {
        KeptInEpoch(FromAttestationInfo(env, input.answers.info.value), input.number, input.hash, input.answers);
      }
    }
  }

  /** Rollback loses nothing. A step that returns an error has sent nothing, and the restored state still holds
      the live transaction, if any; it moved no counter but the failure count, and that one only for a revert. */
  lemma RollbackLosesNothing(r: Run, k: nat)
    requires r.Valid() && k < |r.inputs| && r.effects[k].outcome.Kept?
    ensures r.State(k + 1) == r.State(k)
    ensures Tally(r.worlds[k + 1].log, AnySend) == Tally(r.worlds[k].log, AnySend)
    ensures forall c :: c != FailureCount ==> r.worlds[k + 1].Value(c) == r.worlds[k].Value(c)
    ensures r.worlds[k + 1].Value(FailureCount) == r.worlds[k].Value(FailureCount) +
            if r.State(k).AttestationSubmitted? && ReportsRevert(r.effects[k].calls, r.State(k).transactionHash)
            then 1 else 0
  {
    AccountedAt(r, k);
    assert r.Linked(k);
    KeptStep(r.env, r.worlds[k], r.inputs[k]);
    TallyNone(r.effects[k].calls, AnySend);
    TallyGrows(r, k, AnySend);
    forall c ensures r.worlds[k + 1].Value(c) == r.worlds[k].Value(c) + Ticked(r.effects[k], c) {
      ValueGrows(r, k, c);
    }
    if r.State(k).AttestationSubmitted? && ReportsRevert(r.effects[k].calls, r.State(k).transactionHash) {
      RevertIsTicked(r.effects[k].calls, r.State(k).transactionHash);
    }
  }

  lemma RevertIsTicked(calls: seq<Call>, tx: Felt)
    requires ReportsRevert(calls, tx)
    ensures Tally(calls, RevertReport) >= 1
  {
    assert calls == [calls[0]] + calls[1..];
    TallyConcat([calls[0]], calls[1..], RevertReport);
    TallyOfOne(calls[0], RevertReport);
  }
}
