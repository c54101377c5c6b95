/** When an attestation may be sent, and what it attests. */
module Attestations {
  import opened Primitives
  import opened AttestationInfos
  import opened States
  import opened Runs
  import opened Steps
  import opened Reachability

  /** Input `i` made this `attest` call. */
  ghost predicate Sends(r: Run, i: nat, call: Call)
    requires r.Shaped() && i < |r.inputs|
  {
    call in r.effects[i].calls && call.Attest?
  }

  /** In the session of input `i`, the headers up to that input come in with numbers that never decrease. */
  ghost predicate HeadersNonDecreasing(r: Run, i: nat)
    requires r.Shaped() && i < |r.inputs|
  {
    forall p: nat, q: nat ::
      p < q <= i && r.inputs[p].Header? && r.inputs[q].Header? && r.SameSession(p + 1, i + 1) ==>
      r.inputs[p].number <= r.inputs[q].number
  }

  lemma SendingStep(r: Run, i: nat, call: Call)
    requires r.Valid() && i < |r.inputs| && Sends(r, i, call)
    ensures var w, input := r.worlds[i], r.inputs[i];
            && !w.halted && input.Header? && w.state.info.Contains(input.number)
            && w.state.Started()
            && !r.Adopts(i)
            && AttestShape(w.state, r.effects[i].calls, call)
            && (w.state.params.InWindow(input.number) == Inside ||
                (w.state.AttestationSubmitted? && w.state.params.InWindow(input.number) == Position.Before))
            && r.State(i + 1) == AfterSending(w.state, call.sending)
  {
    assert r.Linked(i);
    AttestStep(r.env, r.worlds[i], r.inputs[i], call);
  }

  lemma LiveBefore(r: Run, k: nat)
    requires r.Valid() && k < |r.inputs| && r.State(k + 1).AttestationSubmitted?
    ensures !r.Adopts(k) && r.State(k + 1).info == r.State(k).info
    ensures r.State(k) == r.State(k + 1) || EndsWithSending(r.effects[k].calls, r.State(k + 1).transactionHash)
  {
    assert r.Linked(k);
    LiveTransactionStep(r.env, r.worlds[k], r.inputs[k]);
  }

  /** A live transaction was sent earlier in its own session, under the same info and parameters, by the last
      `attest` call made so far. */
  lemma {:induction false} LiveTransactionWasSent(r: Run, i: nat) returns (p: nat, call: Call)
    requires r.Valid() && i <= |r.inputs|
    requires r.State(i).AttestationSubmitted?
    ensures p < i && Sends(r, p, call) && r.SameSession(p + 1, i)
    ensures call.sending == Sent(r.State(i).transactionHash, true)
    ensures r.State(p).info == r.State(i).info
    ensures forall k: nat :: p < k <= i ==> r.State(k) == r.State(i)
    ensures forall k: nat, c :: p < k < i ==> !Sends(r, k, c)
  {
    var before := i - 1;
    LiveBefore(r, before);
    if c :| Sends(r, before, c) {
      SendingStep(r, before, c);
      p, call := before, c;
    } else {
      NoSendNoSending(r, before, r.State(i).transactionHash);
      p, call := LiveTransactionWasSent(r, before);
    }
  }

  lemma NoSendNoSending(r: Run, k: nat, tx: Felt)
    requires r.Shaped() && k < |r.inputs| && forall c :: !Sends(r, k, c)
    ensures !EndsWithSending(r.effects[k].calls, tx)
  {
    var calls := r.effects[k].calls;
    assert calls != [] ==> !Sends(r, k, calls[|calls| - 1]);
  }

  /** What an `attest` call in state `s`, made while header `n` is handled, may look like. */
  ghost predicate SafeAttestation(env: Env, s: State, n: U64, calls: seq<Call>, call: Call)
    requires s.info.Assignable()
  {
    var b := Block(env, s);
    && s.info.start <= n < s.info.End()
    && n < b + s.info.window
    && s.Started()
    && (s.Attesting? ==> b + MIN_ATTESTATION_WINDOW <= n)
    && call.Attest? && call.sender == s.info.operational && call.blockHash == s.params.blockHash
    && |calls| >= 2
    && calls[|calls| - 2] == AttestationDone(s.info.staker, Ok(false))
    && calls[|calls| - 1] == call
  }

  lemma SafeInWindow(env: Env, s: State, n: U64, calls: seq<Call>, call: Call)
    requires s.info.Assignable() && ExactWindow(env, s)
    requires s.info.Contains(n) && s.Started() && AttestShape(s, calls, call)
    requires s.params.InWindow(n) == Inside || (s.AttestationSubmitted? && s.params.InWindow(n) == Position.Before)
    requires s.AttestationSubmitted? ==> MIN_ATTESTATION_WINDOW <= s.info.window
    ensures SafeAttestation(env, s, n, calls, call)
  {
  }

  /** A transaction is live only in sessions whose window is longer than eleven blocks. */
  lemma {:induction false} LiveNeedsRoom(r: Run, i: nat)
    requires r.Valid() && i <= |r.inputs|
    requires r.State(i).info.Sane() && r.State(i).AttestationSubmitted?
    ensures r.State(i).info.window > MIN_ATTESTATION_WINDOW
  {
    var p, call := LiveTransactionWasSent(r, i);
    SendingStep(r, p, call);
    ReachableWindow(r, p);
    if r.State(p).AttestationSubmitted? {
      LiveNeedsRoom(r, p);
    }
  }

  /** Window safety. Whatever the interleaving and the answers, an `attest` call made while header n is handled
      has n in the epoch, before b + w, carries the recorded hash from the operational address, follows a "not done
      in this epoch" answer for the same staker, and in phase Attesting has n >= b + 11. */
  lemma WindowSafety(r: Run, i: nat, call: Call)
    requires r.Valid() && i < |r.inputs| && Sends(r, i, call)
    requires r.State(i).info.Sane()
    ensures r.inputs[i].Header? && r.State(i).info.Assignable()
    ensures SafeAttestation(r.env, r.State(i), r.inputs[i].number, r.effects[i].calls, call)
  {
    SendingStep(r, i, call);
    ReachableWindow(r, i);
    if r.State(i).AttestationSubmitted? {
      LiveNeedsRoom(r, i);
    }
    SafeInWindow(r.env, r.State(i), r.inputs[i].number, r.effects[i].calls, call);
  }

  /** While the headers of the session have not decreased, also resubmissions wait for block b + 11. */
  lemma {:induction false} NeverEarly(r: Run, i: nat, call: Call)
    requires r.Valid() && i < |r.inputs| && Sends(r, i, call)
    requires r.State(i).info.Sane()
    requires HeadersNonDecreasing(r, i)
    ensures r.inputs[i].Header? && r.State(i).info.Assignable()
    ensures Block(r.env, r.State(i)) + MIN_ATTESTATION_WINDOW <= r.inputs[i].number
  {
    SendingStep(r, i, call);
    WindowSafety(r, i, call);
    if r.State(i).AttestationSubmitted? {
      var p, earlier := LiveTransactionWasSent(r, i);
      assert r.SameSession(p + 1, i + 1);
      NeverEarly(r, p, earlier);
    }
  }

  /** A window of at most eleven blocks leaves no block to send in: nothing is ever sent in such a session. */
  lemma ShortWindowNeverSends(r: Run, i: nat, call: Call)
    requires r.Valid() && i < |r.inputs|
    requires r.State(i).info.Sane() && r.State(i).info.window <= MIN_ATTESTATION_WINDOW
    ensures !Sends(r, i, call)
  {
    if Sends(r, i, call) {
      SendingStep(r, i, call);
      if r.State(i).AttestationSubmitted? {
        LiveNeedsRoom(r, i);
      } else {
        WindowSafety(r, i, call);
      }
    }
  }
}
