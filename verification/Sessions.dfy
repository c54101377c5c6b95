/** The course of one session: phase order, the outcome before the epoch ends, and the first attestation. */
module Sessions {
  import opened Primitives
  import opened AttestationInfos
  import opened States
  import opened Runs
  import opened Steps
  import opened Reachability
  import opened Attestations

  /** Within a session the info never changes, a started attestation never un-starts, and waiting is final. */
  lemma {:induction false} SessionKeeps(r: Run, i: nat, j: nat)
    requires r.Valid() && i <= j <= |r.inputs| && r.SameSession(i, j)
    ensures r.State(j).info == r.State(i).info
    ensures Rank(r.State(i)) >= 1 ==> Rank(r.State(j)) >= 1
    ensures r.State(i).WaitingForNextEpoch? ==> r.State(j) == r.State(i)
  {
    if i < j {
      SessionKeeps(r, i, j - 1);
      assert r.Linked(j - 1) && !r.Adopts(j - 1);
      SessionStep(r.env, r.worlds[j - 1], r.inputs[j - 1]);
    }
  }

  /** Input `k` led from a submitted attestation back to attesting. */
  ghost predicate BackwardEdge(r: Run, k: nat)
    requires r.Shaped() && k < |r.inputs|
  {
    && r.State(k).AttestationSubmitted? && r.State(k + 1) == Attesting(r.State(k).info, r.State(k).params)
    && FailedReplacement(r.State(k), r.effects[k].calls)
  }

  /** The phase goes back exactly when the step's calls are those of a failed replacement: the live transaction
      reverted, the node denied that the epoch was done, and the new call left no live transaction. */
  lemma BackwardEdgeExactly(r: Run, k: nat)
    requires r.Valid() && k < |r.inputs| && !r.Adopts(k)
    ensures Rank(r.State(k + 1)) < Rank(r.State(k)) <==> BackwardEdge(r, k)
    ensures r.State(k).AttestationSubmitted? && FailedReplacement(r.State(k), r.effects[k].calls) ==> BackwardEdge(r, k)
  {
    assert r.Linked(k);
    SessionStep(r.env, r.worlds[k], r.inputs[k]);
  }

  /** Phase order over a stretch of a session: without a backward edge the phase only moves forward. */
  lemma {:induction false} PhaseOrder(r: Run, i: nat, j: nat)
    requires r.Valid() && i <= j <= |r.inputs| && r.SameSession(i, j)
    ensures Rank(r.State(j)) >= Rank(r.State(i)) || exists k: nat :: i <= k < j && BackwardEdge(r, k)
  {
    if i < j {
      PhaseOrder(r, i, j - 1);
      assert !r.Adopts(j - 1);
      BackwardEdgeExactly(r, j - 1);
    }
  }

  lemma PastWindowStep(s: State, n: U64, hash: Felt, a: Answers)
    requires Rank(s) >= 1
    requires s.Started() ==> s.params.InWindow(n) == Position.After
    ensures OnHeaderInEpoch(s, n, hash, a).outcome == Done(WaitingForNextEpoch(s.info))
  {
  }

  lemma ReachedStep(s: State, n: U64, hash: Felt, a: Answers)
    requires s.BeforeBlockToAttest? ==> s.blockToAttest <= n
    requires OnHeaderInEpoch(s, n, hash, a).outcome.Done?
    ensures Rank(OnHeaderInEpoch(s, n, hash, a).outcome.state) >= 1
  {
  }

  /** A header at or above b handled without error has started the attestation. */
  lemma StartedAfterBlock(r: Run, i: nat)
    requires r.Valid() && i < |r.inputs| && r.inputs[i].Header? && r.effects[i].outcome.Done?
    requires r.State(i + 1).info.Assignable() && Block(r.env, r.State(i + 1)) <= r.inputs[i].number
    ensures Rank(r.State(i + 1)) >= 1
  {
    assert r.Linked(i);
    var input := r.inputs[i];
    if r.Adopts(i) {
      var s := FromAttestationInfo(r.env, input.answers.info.value);
      PhaseInEpoch(s, input.number, input.hash, input.answers);
      ReachedStep(s, input.number, input.hash, input.answers);
    } else {
      SessionStep(r.env, r.worlds[i], input);
      ReachableCoherent(r, i);
      ReachedStep(r.State(i), input.number, input.hash, input.answers);
    }
  }

  /** Decided before the epoch ends. Once a header at or above b was handled without error, a later header of the
      same session in [b + w, E) cannot fail and leaves the machine waiting for the next epoch; and b + w <= E - 1,
      so the epoch has such blocks. */
  lemma DecidedBeforeEpochEnds(r: Run, i: nat, j: nat)
    requires r.Valid() && i < j < |r.inputs| && r.SameSession(i + 1, j) && !r.worlds[j].halted
    requires MIN_ATTESTATION_WINDOW <= r.State(j).info.window < r.State(j).info.epochLen
    requires r.State(j).info.End() < U64_LIMIT && r.State(j).info.Assignable()
    requires r.inputs[i].Header? && r.effects[i].outcome.Done?
    requires Block(r.env, r.State(j)) <= r.inputs[i].number
    requires r.inputs[j].Header?
    requires Block(r.env, r.State(j)) + r.State(j).info.window <= r.inputs[j].number < r.State(j).info.End()
    ensures r.effects[j].outcome == Done(WaitingForNextEpoch(r.State(j).info))
    ensures r.State(j + 1) == WaitingForNextEpoch(r.State(j).info)
    ensures Block(r.env, r.State(j)) + r.State(j).info.window <= r.State(j).info.End() - 1
  {
    SaneForUsableWindows(r.State(j).info);
    SessionKeeps(r, i + 1, j);
    StartedAfterBlock(r, i);
    ReachableWindow(r, j);
    assert r.Linked(j);
    PastWindowStep(r.State(j), r.inputs[j].number, r.inputs[j].hash, r.inputs[j].answers);
  }

  /** The headers among inputs `lo`, ..., `i - 1`. */
  ghost function Headers(r: Run, lo: nat, i: nat): nat
    requires r.Shaped() && lo <= i <= |r.inputs|
  {
    if lo == i then 0 else Headers(r, lo, i - 1) + if r.inputs[i - 1].Header? then 1 else 0
  }

  /** From index `lo` to before `top`, the headers are m, m + 1, ..., each handled without error. Anything may come
      in between, but for a re-initialisation and an event that matches. */
  ghost predicate Consecutive(r: Run, lo: nat, top: nat, m: U64)
    requires r.Shaped() && top <= |r.inputs|
  {
    forall k: nat :: lo <= k < top ==> NextInLine(r, k, m + Headers(r, lo, k))
  }

  ghost predicate NextInLine(r: Run, k: nat, next: nat)
    requires r.Shaped() && k < |r.inputs|
  {
    if r.inputs[k].Header? then r.inputs[k].number == next && r.effects[k].outcome.Done?
    else !r.Adopts(k) && !MatchingEvent(r.State(k), r.inputs[k])
  }

  lemma {:induction false} HeadersAfter(r: Run, lo: nat, i: nat)
    requires r.Shaped() && lo < i <= |r.inputs| && r.inputs[lo].Header?
    ensures Headers(r, lo, i) == Headers(r, lo + 1, i) + 1
  {
    if lo + 1 < i {
      HeadersAfter(r, lo, i - 1);
    }
  }

  lemma QuietStep(env: Env, w: World, input: Input)
    requires !input.Header? && !Adoption(EffectOf(env, w, input)) && !MatchingEvent(w.state, input)
    ensures Next(env, w, input).state == w.state
    ensures forall call :: call in EffectOf(env, w, input).calls ==> !call.Attest?
  {
  }

  /** The state while block numbers run up to b + 11. */
  ghost predicate Approaching(env: Env, s: State, next: nat)
    requires s.info.Assignable()
  {
    var b := Block(env, s);
    && (next <= b ==> s.BeforeBlockToAttest?)
    && (b < next ==> s.Attesting?)
  }

  lemma ApproachStep(env: Env, s: State, n: U64, hash: Felt, a: Answers)
    requires s.info.Assignable() && ExactWindow(env, s) && Approaching(env, s, n)
    requires n < Block(env, s) + MIN_ATTESTATION_WINDOW
    ensures var e := OnHeaderInEpoch(s, n, hash, a);
            && (forall call :: call in e.calls ==> !call.Attest?)
            && (e.outcome.Done? ==> e.outcome.state.info == s.info && Approaching(env, e.outcome.state, n + 1))
  {
  }

  /** One input on the way to b + 11. */
  lemma ApproachOne(r: Run, k: nat, next: nat)
    requires r.Valid() && k < |r.inputs| && r.State(k).info.Sane() && Approaching(r.env, r.State(k), next)
    requires r.State(k).info.start <= next && MIN_ATTESTATION_WINDOW < r.State(k).info.window
    requires NextInLine(r, k, next)
    requires r.inputs[k].Header? ==> next < Block(r.env, r.State(k)) + MIN_ATTESTATION_WINDOW
    ensures r.State(k + 1).info == r.State(k).info
    ensures Approaching(r.env, r.State(k + 1), if r.inputs[k].Header? then next + 1 else next)
    ensures forall call :: call in r.effects[k].calls ==> !call.Attest?
  {
    var input := r.inputs[k];
    if input.Header? {
      ReachableWindow(r, k);
      HandledInEpoch(r, k);
      ApproachStep(r.env, r.State(k), input.number, input.hash, input.answers);
    } else {
      assert r.Linked(k);
      QuietStep(r.env, r.worlds[k], input);
    }
  }

  lemma {:induction false} ApproachRun(r: Run, lo: nat, top: nat, m: U64, i: nat)
    requires r.Valid() && lo <= i <= top <= |r.inputs| && Consecutive(r, lo, top, m)
    requires r.State(lo).info.Sane() && Approaching(r.env, r.State(lo), m)
    requires r.State(lo).info.start <= m <= m + Headers(r, lo, i) <= Block(r.env, r.State(lo)) + MIN_ATTESTATION_WINDOW
    requires r.State(lo).info.window > MIN_ATTESTATION_WINDOW
    ensures r.State(i).info == r.State(lo).info
    ensures Approaching(r.env, r.State(i), m + Headers(r, lo, i))
    ensures forall k: nat, call :: lo <= k < i && call in r.effects[k].calls ==> !call.Attest?
  {
    if lo < i {
      var k := i - 1;
      ApproachRun(r, lo, top, m, k);
      assert NextInLine(r, k, m + Headers(r, lo, k));
      ApproachOne(r, k, m + Headers(r, lo, k));
    }
  }

  lemma InsideStep(s: State, n: U64, hash: Felt, a: Answers)
    requires s.Attesting? && s.params.InWindow(n) == Inside && a.done == Ok(false)
    ensures Attest(s.info.operational, s.params.blockHash, a.attest) in OnHeaderInEpoch(s, n, hash, a).calls
  {
    CheckAndSubmitCalls(s.info, s.params, a);
    var calls := OnHeaderInEpoch(s, n, hash, a).calls;
    assert calls[1] in calls;
  }

  lemma ApproachSends(r: Run, lo: nat, m: U64, i: nat)
    requires r.Valid() && lo <= i < |r.inputs| && Consecutive(r, lo, i + 1, m)
    requires r.State(lo).info.Sane() && Approaching(r.env, r.State(lo), m)
    requires r.State(lo).info.start <= m && r.State(lo).info.window > MIN_ATTESTATION_WINDOW
    requires r.inputs[i].Header? && r.inputs[i].answers.done == Ok(false)
    requires r.inputs[i].number == Block(r.env, r.State(lo)) + MIN_ATTESTATION_WINDOW
    ensures exists call :: Sends(r, i, call)
    ensures forall k: nat, call :: lo <= k < i ==> !Sends(r, k, call)
  {
    ApproachRun(r, lo, i + 1, m, i);
    ReachableWindow(r, i);
    HandledInEpoch(r, i);
    var s, input := r.State(i), r.inputs[i];
    InsideStep(s, input.number, input.hash, input.answers);
    assert Sends(r, i, Attest(s.info.operational, s.params.blockHash, input.answers.attest));
  }

  /** A header that opens a session at or below the assigned block leaves the state approaching. */
  lemma OpeningApproaches(r: Run, lo: nat)
    requires r.Valid() && lo < |r.inputs| && r.inputs[lo].Header? && r.effects[lo].outcome.Done? && r.Adopts(lo)
    requires r.State(lo + 1).info.Sane()
    requires r.inputs[lo].number <= Block(r.env, r.State(lo + 1))
    ensures Approaching(r.env, r.State(lo + 1), r.inputs[lo].number + 1)
    ensures forall call :: !Sends(r, lo, call)
  {
    assert r.Linked(lo);
    AdoptionStep(r.env, r.worlds[lo], r.inputs[lo]);
    var s, input := FromAttestationInfo(r.env, r.State(lo + 1).info), r.inputs[lo];
    PhaseInEpoch(s, input.number, input.hash, input.answers);
    AssignedBlockPlacement(r.env, r.State(lo + 1).info);
    ApproachStep(r.env, s, input.number, input.hash, input.answers);
  }

  lemma LaterConsecutive(r: Run, lo: nat, top: nat, m: U64)
    requires r.Shaped() && lo < top <= |r.inputs| && Consecutive(r, lo, top, m) && r.inputs[lo].Header?
    requires m + 1 < U64_LIMIT
    ensures Consecutive(r, lo + 1, top, m + 1)
  {
    var from := lo + 1;
    forall k: nat | from <= k < top ensures NextInLine(r, k, m + 1 + Headers(r, from, k)) {
      HeadersAfter(r, lo, k);
      assert NextInLine(r, k, m + Headers(r, lo, k));
    }
  }

  /** Input `lo` is handled within a session that has not reached its assigned block, or opens a new session. */
  ghost predicate BeginsAt(r: Run, lo: nat)
    requires r.Shaped() && lo < |r.inputs|
  {
    r.Adopts(lo) || r.State(lo).BeforeBlockToAttest?
  }

  /** Punctuality. When headers come in one after the other without error from at or below the assigned block b on,
      the first of which may be the one that opens the session, with a window of more than eleven blocks, nobody seen
      to attest, and the node not calling the epoch done at b + 11, the first `attest` call is made at exactly block
      b + 11. The info is that after the first input. */
  lemma FirstAttestationIsPunctual(r: Run, lo: nat, m: U64, i: nat)
    requires r.Valid() && lo <= i < |r.inputs| && Consecutive(r, lo, i + 1, m) && BeginsAt(r, lo)
    requires r.State(lo + 1).info.Sane()
    requires r.State(lo + 1).info.start <= m <= Block(r.env, r.State(lo + 1))
    requires r.State(lo + 1).info.window > 11
    requires r.inputs[i].Header? && r.inputs[i].answers.done == Ok(false)
    requires r.inputs[i].number == Block(r.env, r.State(lo + 1)) + 11
    ensures exists call :: Sends(r, i, call)
    ensures forall k: nat, call :: lo <= k < i ==> !Sends(r, k, call)
  {
    assert NextInLine(r, lo, m + Headers(r, lo, lo));
    if r.Adopts(lo) {
      OpeningApproaches(r, lo);
      LaterConsecutive(r, lo, i + 1, m);
      ApproachSends(r, lo + 1, m + 1, i);
    } else {
      assert r.Linked(lo);
      SessionStep(r.env, r.worlds[lo], r.inputs[lo]);
      ReachableWindow(r, lo);
      ApproachSends(r, lo, m, i);
    }
  }
}
