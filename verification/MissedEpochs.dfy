/** When the missed count means what its documentation says, epochs without a successful attestation. */
module MissedEpochs {
  import opened Primitives
  import opened AttestationInfos
  import opened States
  import opened Runs
  import opened Steps
  import opened Reachability
  import opened Sessions
  import opened Accounting
  import opened Conservation
  import opened Outcomes
  import opened Hashes
  import opened SampleRuns

  // ---------- One session ----------

  /** The first block whose header closes the window of this state's session. */
  function ClosingBlock(env: Env, s: State): nat
    requires s.info.Assignable()
  {
    Block(env, s) + if s.info.window < MIN_ATTESTATION_WINDOW then MIN_ATTESTATION_WINDOW else s.info.window
  }

  /** World `lo` begins a session. */
  ghost predicate SessionStart(r: Run, lo: nat)
    requires r.Shaped() && lo <= |r.inputs|
  {
    lo == 0 || r.Adopts(lo - 1)
  }

  ghost predicate Handled(r: Run, k: nat)
    requires r.Shaped() && k < |r.inputs|
  {
    r.inputs[k].Header? && r.effects[k].outcome.Done?
  }

  /** Some header at or above b was handled, and after it one past the window and within the epoch. The former may
      be the header that opened the session. */
  ghost predicate SawWindowClose(r: Run, lo: nat, hi: nat)
    requires r.Shaped() && lo <= hi <= |r.inputs|
  {
    r.State(lo).info.Assignable() && exists p: nat, q: nat ::
      && lo <= p + 1 && p < q < hi
      && Handled(r, p) && Block(r.env, r.State(lo)) <= r.inputs[p].number
      && Handled(r, q) && ClosingBlock(r.env, r.State(lo)) <= r.inputs[q].number < r.State(lo).info.End()
  }

  /** What the program learned in a step is true: it learned that the epoch is attested only if it ends up so. An
      answer that the epoch is not attested, and a missing answer, say nothing. */
  predicate LearnsTruth(s: State, input: Input, e: Effect, attested: bool) {
    && (MatchingEvent(s, input) ==> attested)
    && (LastAnswer(s, e.calls, Ok(true)) ==> attested)
    && (s.AttestationSubmitted? && ReportsSuccess(e.calls, s.transactionHash) ==> attested)
  }

  ghost predicate LearnsTruthAt(r: Run, k: nat, attested: bool)
    requires r.Shaped() && k < |r.inputs|
  {
    LearnsTruth(r.State(k), r.inputs[k], r.effects[k], attested)
  }

  /** At input `k` the window closed and the node did not say that the epoch is attested. */
  ghost predicate MissesAt(r: Run, k: nat)
    requires r.Shaped() && k < |r.inputs|
  {
    Misses(r.worlds[k], r.inputs[k], r.effects[k])
  }

  ghost predicate SomeMiss(r: Run, lo: nat, hi: nat)
    requires r.Shaped() && lo <= hi <= |r.inputs|
  {
    exists k: nat :: lo <= k < hi && MissesAt(r, k)
  }

  lemma StartNotWaiting(r: Run, lo: nat)
    requires r.Valid() && lo <= |r.inputs| && SessionStart(r, lo)
    ensures !r.State(lo).WaitingForNextEpoch?
  {
    if lo > 0 {
      assert r.Linked(lo - 1);
      AdoptionStep(r.env, r.worlds[lo - 1], r.inputs[lo - 1]);
    }
  }

  lemma HaltedKeeps(r: Run, k: nat)
    requires r.Valid() && k < |r.inputs| && r.worlds[k].halted
    ensures r.State(k + 1) == r.State(k)
  {
    assert r.Linked(k);
  }

  /** A miss ends the session. */
  lemma MissWaits(r: Run, k: nat)
    requires r.Valid() && k < |r.inputs| && !r.Adopts(k) && MissesAt(r, k)
    ensures r.State(k).Started() && r.State(k + 1).WaitingForNextEpoch? && Handled(r, k)
  {
    SessionEndsExactly(r, k);
    assert r.Linked(k);
  }

  /** A session has at most one miss, and counts it. */
  lemma {:induction false} MissCounted(r: Run, lo: nat, hi: nat)
    requires r.Valid() && lo <= hi <= |r.inputs| && r.SameSession(lo, hi)
    ensures r.worlds[hi].Value(MissedCount) == r.worlds[lo].Value(MissedCount) + One(SomeMiss(r, lo, hi))
    ensures SomeMiss(r, lo, hi) ==> r.State(hi).WaitingForNextEpoch?
  {
    if lo < hi {
      var k := hi - 1;
      MissCounted(r, lo, k);
      ValueGrows(r, k, MissedCount);
      MissedAt(r, k);
      assert !r.Adopts(k);
      SessionKeeps(r, k, hi);
      if MissesAt(r, k) {
        MissWaits(r, k);
      }
      assert SomeMiss(r, lo, hi) <==> SomeMiss(r, lo, k) || MissesAt(r, k);
    }
  }

  /** In an epoch that is not attested, when nothing false is learned, only a miss ends the session. */
  lemma {:induction false} WaitsByMiss(r: Run, lo: nat, hi: nat)
    requires r.Valid() && lo <= hi <= |r.inputs| && r.SameSession(lo, hi)
    requires !r.State(lo).WaitingForNextEpoch? && r.State(hi).WaitingForNextEpoch?
    requires forall k: nat :: lo <= k < hi ==> LearnsTruthAt(r, k, false)
    ensures SomeMiss(r, lo, hi)
  {
    var k := hi - 1;
    assert !r.Adopts(k) && LearnsTruthAt(r, k, false);
    if r.State(k).WaitingForNextEpoch? {
      WaitsByMiss(r, lo, k);
      var j: nat :| lo <= j < k && MissesAt(r, j);
    } else if r.worlds[k].halted {
      HaltedKeeps(r, k);
    } else {
      SessionEndsExactly(r, k);
      assert MissesAt(r, k);
    }
  }

  lemma ClosesAt(env: Env, s: State, n: U64)
    requires s.info.Assignable() && ExactWindow(env, s) && s.Started()
    ensures s.params.InWindow(n) == Position.After <==> ClosingBlock(env, s) <= n
  {
  }

  /** Seeing the window close ends the session. */
  lemma SawCloseWaits(r: Run, lo: nat, hi: nat, p: nat, q: nat)
    requires r.Valid() && lo <= hi <= |r.inputs| && r.SameSession(lo, hi) && r.State(lo).info.Sane()
    requires lo <= p + 1 && p < q < hi && Handled(r, p) && Handled(r, q)
    requires Block(r.env, r.State(lo)) <= r.inputs[p].number
    requires ClosingBlock(r.env, r.State(lo)) <= r.inputs[q].number < r.State(lo).info.End()
    ensures r.State(hi).WaitingForNextEpoch?
  {
    SessionKeeps(r, lo, p + 1);
    StartedAfterBlock(r, p);
    SessionKeeps(r, p + 1, q);
    ReachableWindow(r, q);
    if r.State(q).Started() {
      ClosesAt(r.env, r.State(q), r.inputs[q].number);
    }
    assert !r.Adopts(q);
    HandledInEpoch(r, q);
    PastWindowStep(r.State(q), r.inputs[q].number, r.inputs[q].hash, r.inputs[q].answers);
    SessionKeeps(r, q + 1, hi);
  }

  /** The hash of a block is asked for only when a later header comes in. */
  lemma AskedLater(env: Env, w: World, input: Input, block: U64, hash: Result<Felt>)
    requires GetBlockHash(block, hash) in EffectOf(env, w, input).calls
    ensures input.Header? && block < input.number
  {
  }

  /** A started attestation has seen a header at or above its block. */
  lemma StartedBy(r: Run, lo: nat, k: nat) returns (p: nat)
    requires r.Valid() && lo <= k <= |r.inputs| && SessionStart(r, lo) && r.SameSession(lo, k) && r.State(k).Started()
    requires r.State(lo).info.Assignable()
    ensures lo <= p + 1 && p < k && Handled(r, p) && Block(r.env, r.State(lo)) <= r.inputs[p].number
  {
    p := HashIsFresh(r, k);
    SessionKeeps(r, lo, k);
    assert r.Linked(p);
    var e := r.effects[p];
    if r.inputs[p].number != Block(r.env, r.State(lo)) {
      assert e.calls[|e.calls| - 1] in e.calls;
      AskedLater(r.env, r.worlds[p], r.inputs[p], Block(r.env, r.State(lo)), Ok(r.State(k).params.blockHash));
    }
  }

  /** A miss is a window seen to close. */
  lemma MissSawClose(r: Run, lo: nat, hi: nat, k: nat)
    requires r.Valid() && lo <= k < hi <= |r.inputs| && r.SameSession(lo, hi) && SessionStart(r, lo)
    requires r.State(lo).info.Sane() && MissesAt(r, k)
    ensures SawWindowClose(r, lo, hi)
  {
    assert !r.Adopts(k);
    MissWaits(r, k);
    SessionKeeps(r, lo, k);
    ReachableWindow(r, k);
    ClosesAt(r.env, r.State(k), r.inputs[k].number);
    var p := StartedBy(r, lo, k);
  }

  /** In an epoch that is not attested, when nothing false is learned, misses are the windows seen to close. */
  lemma UnattestedMisses(r: Run, lo: nat, hi: nat)
    requires r.Valid() && lo <= hi <= |r.inputs| && r.SameSession(lo, hi) && SessionStart(r, lo)
    requires r.State(lo).info.Sane()
    requires forall k: nat :: lo <= k < hi ==> LearnsTruthAt(r, k, false)
    ensures SomeMiss(r, lo, hi) <==> SawWindowClose(r, lo, hi)
  {
    if k: nat :| lo <= k < hi && MissesAt(r, k) {
      MissSawClose(r, lo, hi, k);
    } else if SawWindowClose(r, lo, hi) {
      var p: nat, q: nat :|
        && lo <= p + 1 && p < q < hi
        && Handled(r, p) && Block(r.env, r.State(lo)) <= r.inputs[p].number
        && Handled(r, q) && ClosingBlock(r.env, r.State(lo)) <= r.inputs[q].number < r.State(lo).info.End();
      SawCloseWaits(r, lo, hi, p, q);
      StartNotWaiting(r, lo);
      WaitsByMiss(r, lo, hi);
    }
  }

  // ---------- Epochs ----------

  /** The state numbered `k` belongs to one of these epochs. */
  ghost predicate InEpochs(r: Run, k: nat, epochs: iset<U64>)
    requires r.Shaped() && k <= |r.inputs|
  {
    r.State(k).info.epochId in epochs
  }

  /** How often inputs `lo`, ..., `hi - 1` counted one of these epochs as missed. */
  ghost function MissesOf(r: Run, epochs: iset<U64>, lo: nat, hi: nat): nat
    requires r.Shaped() && lo <= hi <= |r.inputs|
  {
    if lo == hi then 0
    else MissesOf(r, epochs, lo, hi - 1) + One(InEpochs(r, hi - 1, epochs) && MissesAt(r, hi - 1))
  }

  /** Where the last session of a stretch starts. */
  ghost function LastStart(r: Run, lo: nat, hi: nat): (s: nat)
    requires r.Shaped() && lo <= hi <= |r.inputs|
    ensures lo <= s <= hi && r.SameSession(s, hi) && (s == lo || r.Adopts(s - 1))
  {
    if lo == hi || r.Adopts(hi - 1) then hi else LastStart(r, lo, hi - 1)
  }

  /** The sessions of these epochs, in a stretch, that saw their window close. */
  ghost function ClosedSessions(r: Run, epochs: iset<U64>, lo: nat, hi: nat): nat
    requires r.Shaped() && lo <= hi <= |r.inputs|
    decreases hi
  {
    var s := LastStart(r, lo, hi);
    One(InEpochs(r, s, epochs) && SawWindowClose(r, s, hi)) +
    if s == lo then 0 else ClosedSessions(r, epochs, lo, s - 1)
  }

  lemma {:induction false} MissesAppend(r: Run, epochs: iset<U64>, lo: nat, mid: nat, hi: nat)
    requires r.Shaped() && lo <= mid <= hi <= |r.inputs|
    ensures MissesOf(r, epochs, lo, hi) == MissesOf(r, epochs, lo, mid) + MissesOf(r, epochs, mid, hi)
  {
    if mid < hi {
      MissesAppend(r, epochs, lo, mid, hi - 1);
    }
  }

  lemma {:induction false} SessionMisses(r: Run, epochs: iset<U64>, lo: nat, hi: nat)
    requires r.Valid() && lo <= hi <= |r.inputs| && r.SameSession(lo, hi)
    ensures MissesOf(r, epochs, lo, hi) == One(InEpochs(r, lo, epochs) && SomeMiss(r, lo, hi))
  {
    if lo < hi {
      var k := hi - 1;
      SessionMisses(r, epochs, lo, k);
      SessionKeeps(r, lo, k);
      MissCounted(r, lo, k);
      assert SomeMiss(r, lo, hi) <==> SomeMiss(r, lo, k) || MissesAt(r, k);
    }
  }

  lemma AdoptionMissesNothing(r: Run, k: nat)
    requires r.Valid() && k < |r.inputs| && r.Adopts(k)
    ensures !MissesAt(r, k)
  {
    assert r.Linked(k);
    AdoptionStep(r.env, r.worlds[k], r.inputs[k]);
  }

  /** The stretch begins with a session, and where it is in these epochs the infos are sane and nothing is learned
      that would make an epoch attested which is not. */
  ghost predicate Unattested(r: Run, epochs: iset<U64>, lo: nat, hi: nat)
    requires r.Shaped() && lo <= hi <= |r.inputs|
  {
    && SessionStart(r, lo)
    && (forall k: nat :: lo <= k <= hi && InEpochs(r, k, epochs) ==> r.State(k).info.Sane())
    && (forall k: nat :: lo <= k < hi && InEpochs(r, k, epochs) ==> LearnsTruthAt(r, k, false))
  }

  lemma LastSessionMisses(r: Run, epochs: iset<U64>, lo: nat, hi: nat)
    requires r.Valid() && lo <= hi <= |r.inputs| && Unattested(r, epochs, lo, hi)
    ensures var s := LastStart(r, lo, hi);
            MissesOf(r, epochs, s, hi) == One(InEpochs(r, s, epochs) && SawWindowClose(r, s, hi))
  {
    var s := LastStart(r, lo, hi);
    SessionMisses(r, epochs, s, hi);
    if InEpochs(r, s, epochs) {
      forall k: nat | s <= k < hi ensures LearnsTruthAt(r, k, false) {
        SessionKeeps(r, s, k);
        assert InEpochs(r, k, epochs);
      }
      UnattestedMisses(r, s, hi);
    }
  }

  /** Epochs that are not attested are counted once for every session that saw the window close. */
  lemma {:induction false} MissesAreClosedSessions(r: Run, epochs: iset<U64>, lo: nat, hi: nat)
    requires r.Valid() && lo <= hi <= |r.inputs| && Unattested(r, epochs, lo, hi)
    ensures MissesOf(r, epochs, lo, hi) == ClosedSessions(r, epochs, lo, hi)
    decreases hi
  {
    var s := LastStart(r, lo, hi);
    LastSessionMisses(r, epochs, lo, hi);
    MissesAppend(r, epochs, lo, s, hi);
    if lo < s {
      AdoptionMissesNothing(r, s - 1);
      MissesAreClosedSessions(r, epochs, lo, s - 1);
    }
  }

  lemma {:induction false} NoMisses(r: Run, epochs: iset<U64>, lo: nat, hi: nat)
    requires r.Shaped() && lo <= hi <= |r.inputs|
    ensures MissesOf(r, epochs, lo, hi) == 0 <==>
            forall k: nat :: lo <= k < hi && InEpochs(r, k, epochs) ==> !MissesAt(r, k)
  {
    if lo < hi {
      NoMisses(r, epochs, lo, hi - 1);
    }
  }

  /** What the missed count means for an epoch, whatever the interleaving, reorgs and other epochs in between
      included, and whatever the node answers or fails to answer, as long as the program is not told that the epoch is
      attested when it does not end up so. The epoch is counted as documented, that is, once if it is not attested and
      not at all if it is, if and only if
      - it is attested and no window closed on a started attestation without the node saying so, or
      - it is not, and exactly one of its sessions saw the window close: some header at or above b was handled without
        error, and after it, with no re-initialisation in between, one past the window and within the epoch. */
  lemma MissedExactly(r: Run, epoch: U64, lo: nat, hi: nat, attested: bool)
    requires r.Valid() && lo <= hi <= |r.inputs|
    requires !attested ==> Unattested(r, iset{epoch}, lo, hi)
    ensures !attested ==> MissesOf(r, iset{epoch}, lo, hi) == ClosedSessions(r, iset{epoch}, lo, hi)
    ensures MissesOf(r, iset{epoch}, lo, hi) == One(!attested) <==>
            if attested then forall k: nat :: lo <= k < hi && InEpochs(r, k, iset{epoch}) ==> !MissesAt(r, k)
            else ClosedSessions(r, iset{epoch}, lo, hi) == 1
  {
    if attested {
      NoMisses(r, iset{epoch}, lo, hi);
    } else {
      MissesAreClosedSessions(r, iset{epoch}, lo, hi);
    }
  }

  ghost function Others(epochs: iset<U64>): iset<U64> {
    iset e: U64 | e !in epochs
  }

  lemma {:induction false} MissesAreCounted(r: Run, epochs: iset<U64>, lo: nat, hi: nat)
    requires r.Valid() && lo <= hi <= |r.inputs|
    ensures r.worlds[hi].Value(MissedCount) == r.worlds[lo].Value(MissedCount) +
            MissesOf(r, epochs, lo, hi) + MissesOf(r, Others(epochs), lo, hi)
  {
    if lo < hi {
      MissesAreCounted(r, epochs, lo, hi - 1);
      ValueGrows(r, hi - 1, MissedCount);
      MissedAt(r, hi - 1);
    }
  }

  /** The whole counter. Let the epochs of a run be divided into those that end up attested and the others. Then the
      missed count is the number of sessions of the others that saw their window close, plus the windows of attested
      epochs that closed on a started attestation without the node saying so. */
  lemma MissedTotal(r: Run, attested: iset<U64>, n: nat)
    requires r.Valid() && n <= |r.inputs| && Unattested(r, Others(attested), 0, n)
    ensures r.worlds[n].Value(MissedCount) ==
            ClosedSessions(r, Others(attested), 0, n) + MissesOf(r, attested, 0, n)
  {
    MissesAreCounted(r, attested, 0, n);
    MissesAreClosedSessions(r, Others(attested), 0, n);
    assert r.worlds[0].ticks == [];
  }

  // ---------- Where the count is off ----------

  /** An epoch that nobody attested, and that nobody was seen to attest, is not counted as missed when its block is
      never reached: one header, in every environment. */
  lemma UnreachedIsNotMissed(env: Env) returns (r: Run)
    ensures r.Valid() && r.env == env && |r.inputs| == 1 && r.inputs[0].Header? && r.Adopts(0)
    ensures r.State(0).info.End() <= r.inputs[0].number && r.State(1).info.epochId == r.State(0).info.epochId + 1
    ensures forall call :: call in r.worlds[1].log ==> call.GetAttestationInfo?
    ensures r.worlds[1].Value(MissedCount) == 0
  {
    var first, next := Sample(1, 0), Sample(2, 40);
    var answers := NodeAnswers(Err, Err).(info := Ok(next));
    AssignedBlockPlacement(env, first);
    AssignedBlockPlacement(env, next);
    r := EveryInputSequenceRuns(env, first, [Header(40, 7, answers)]);
    assert r.Linked(0);
  }

  /** The window closes on a started attestation and the node does not call the epoch attested. */
  lemma ClosesMissed(r: Run, k: nat)
    requires r.Valid() && k < |r.inputs| && !r.worlds[k].halted
    requires WindowClosed(r.State(k), r.inputs[k]) && r.inputs[k].answers.done != Ok(true)
    ensures r.State(k + 1) == WaitingForNextEpoch(r.State(k).info) && !r.worlds[k + 1].halted && !r.Adopts(k)
    ensures Ticked(r.effects[k], MissedCount) == 1 && Ticked(r.effects[k], ObservedCount) == 0
    ensures LearnsTruthAt(r, k, false) && r.worlds[k + 1].reorgs == r.worlds[k].reorgs
  {
    assert r.Linked(k);
    assert r.effects[k].ticks == [MissedCount];
  }

  /** A matching event while the machine waits for the next epoch. */
  lemma ObservedLater(r: Run, k: nat)
    requires r.Valid() && k < |r.inputs| && !r.worlds[k].halted && r.State(k).WaitingForNextEpoch?
    requires MatchingEvent(r.State(k), r.inputs[k])
    ensures Ticked(r.effects[k], MissedCount) == 0 && Ticked(r.effects[k], ObservedCount) == 1 && !r.Adopts(k)
  {
    assert r.Linked(k);
    assert r.effects[k].ticks == [ObservedCount];
  }

  lemma ValuesAfter(r: Run)
    requires r.Valid() && |r.inputs| == 3 && r.worlds[1].ticks == []
    ensures forall c: Counter :: r.worlds[3].Value(c) == Ticked(r.effects[1], c) + Ticked(r.effects[2], c)
  {
    forall c: Counter ensures r.worlds[3].Value(c) == Ticked(r.effects[1], c) + Ticked(r.effects[2], c) {
      ValueGrows(r, 1, c);
      ValueGrows(r, 2, c);
    }
  }

  /** An epoch that the network reports as attested is counted as missed when the node fails to answer once the
      window has closed: two headers and the confirmation event, in every environment. */
  lemma AttestedYetMissed(env: Env) returns (r: Run)
    ensures r.Valid() && r.env == env && |r.inputs| == 3 && r.SameSession(0, 3)
    ensures MatchingEvent(r.State(2), r.inputs[2])
    ensures r.worlds[3].Value(MissedCount) == 1 && r.worlds[3].Value(ObservedCount) == 1
  {
    var info := Sample(1, 0);
    AssignedBlockPlacement(env, info);
    var b := AssignedBlock(env, info);
    var silent := NodeAnswers(Err, Err);
    r := EveryInputSequenceRuns(env, info, [Header(b, 7, silent), Header(b + 20, 8, silent), Event(1, 1)]);
    BlockStarts(r);
    ClosesMissed(r, 1);
    ObservedLater(r, 2);
    ValuesAfter(r);
  }

  /** A notice comes in and is taken while no other waits: the state starts over. */
  lemma StartsOver(r: Run, k: nat, info: AttestationInfo)
    requires r.Valid() && k + 1 < |r.inputs| && !r.worlds[k].halted && r.worlds[k].reorgs == []
    requires r.inputs[k].ReorgNotice? && r.inputs[k + 1] == TakeReorg(Ok(info)) && info.Assignable()
    ensures r.State(k + 1) == r.State(k) && r.State(k + 2) == FromAttestationInfo(r.env, info)
    ensures r.worlds[k + 2].reorgs == [] && !r.worlds[k + 2].halted
    ensures Ticked(r.effects[k], MissedCount) == 0 && Ticked(r.effects[k + 1], MissedCount) == 0
    ensures LearnsTruthAt(r, k, false) && LearnsTruthAt(r, k + 1, false)
  {
    assert r.Linked(k);
    assert r.Linked(k + 1);
  }

  /** A header past the assigned block starts the attestation with a hash from the node. */
  lemma StartsLate(r: Run, k: nat, hash: Felt)
    requires r.Valid() && k < |r.inputs| && !r.worlds[k].halted && r.State(k).BeforeBlockToAttest?
    requires r.inputs[k].Header? && r.inputs[k].answers.blockHash == Ok(hash)
    requires r.State(k).info.Contains(r.inputs[k].number) && r.State(k).blockToAttest < r.inputs[k].number
    ensures r.State(k + 1) == Attesting(r.State(k).info, ParamsFor(r.State(k).info, r.State(k).blockToAttest, hash))
    ensures r.worlds[k + 1].reorgs == r.worlds[k].reorgs && !r.worlds[k + 1].halted && Handled(r, k)
    ensures Ticked(r.effects[k], MissedCount) == 0 && LearnsTruthAt(r, k, false)
  {
    assert r.Linked(k);
  }

  lemma FirstIsTrue(r: Run)
    requires r.Valid() && Opens(r)
    ensures Handled(r, 0) && LearnsTruthAt(r, 0, false) && r.worlds[1].reorgs == []
    ensures Ticked(r.effects[0], MissedCount) == 0
  {
    AssignedBlockPlacement(r.env, r.first);
    assert r.Linked(0);
  }

  /** A header of the next epoch that does not lie past that epoch's assigned block. */
  lemma NextEpochOpens(r: Run, k: nat, next: AttestationInfo)
    requires r.Valid() && k < |r.inputs| && !r.worlds[k].halted && r.inputs[k].Header?
    requires r.inputs[k].answers.info == Ok(next) && next.Assignable() && !r.State(k).info.Contains(r.inputs[k].number)
    requires r.inputs[k].number <= AssignedBlock(r.env, next)
    ensures r.Adopts(k) && r.State(k + 1).info == next && Ticked(r.effects[k], MissedCount) == 0
    ensures LearnsTruthAt(r, k, false)
  {
    assert r.Linked(k);
  }

  /** Steps that do not count an epoch as missed. */
  lemma {:induction false} NoneCounted(r: Run, lo: nat, hi: nat)
    requires r.Valid() && lo <= hi <= |r.inputs|
    requires forall k: nat :: lo <= k < hi ==> Ticked(r.effects[k], MissedCount) == 0
    ensures r.worlds[hi].Value(MissedCount) == r.worlds[lo].Value(MissedCount)
  {
    if lo < hi {
      NoneCounted(r, lo, hi - 1);
      ValueGrows(r, hi - 1, MissedCount);
    }
  }

  function Undone(): Answers {
    NodeAnswers(Ok(false), Err).(blockHash := Ok(7))
  }

  /** A reorg after the window has closed makes an epoch that nobody attested count twice: six inputs, in every
      environment, with a node that only tells the truth. */
  lemma ReorgCountsTwice(env: Env) returns (r: Run)
    ensures r.Valid() && r.env == env && |r.inputs| == 6
    ensures forall k: nat :: k <= 6 ==> InEpochs(r, k, iset{1})
    ensures forall k: nat :: k < 6 ==> LearnsTruthAt(r, k, false)
    ensures r.worlds[6].Value(MissedCount) == 2
  {
    var info := Sample(1, 0);
    AssignedBlockPlacement(env, info);
    var b := AssignedBlock(env, info);
    r := EveryInputSequenceRuns(env, info, [Header(b, 7, Undone()), Header(b + 20, 8, Undone()),
                                            ReorgNotice(ReorgData(1)), TakeReorg(Ok(info)),
                                            Header(b + 1, 9, Undone()), Header(b + 20, 8, Undone())]);
    BlockStarts(r);
    FirstIsTrue(r);
    ClosesMissed(r, 1);
    StartsOver(r, 2, info);
    StartsLate(r, 4, 7);
    ClosesMissed(r, 5);
    NoneCounted(r, 0, 1);
    ValueGrows(r, 1, MissedCount);
    NoneCounted(r, 2, 5);
    ValueGrows(r, 5, MissedCount);
    assert r.worlds[0].ticks == [];
  }

  /** A reorg between the assigned block and the end of the window makes an epoch that nobody attested not count at
      all, though headers at b and past the window were handled: five inputs, in every environment. */
  lemma ReorgHidesClose(env: Env) returns (r: Run)
    ensures r.Valid() && r.env == env && |r.inputs| == 5
    ensures forall k: nat :: k <= 4 ==> InEpochs(r, k, iset{1}) && r.State(k).info == r.first
    ensures forall k: nat :: k < 5 ==> LearnsTruthAt(r, k, false)
    ensures r.first.Assignable() && Handled(r, 0) && r.inputs[0].number == AssignedBlock(env, r.first)
    ensures Handled(r, 3) && r.inputs[3].number == ClosingBlock(env, r.State(3)) < r.first.End()
    ensures r.Adopts(4) && r.State(5).info.epochId == 2
    ensures r.worlds[5].Value(MissedCount) == 0
  {
    var info, next := Sample(1, 0), Sample(2, 40);
    AssignedBlockPlacement(env, info);
    AssignedBlockPlacement(env, next);
    var b := AssignedBlock(env, info);
    r := EveryInputSequenceRuns(env, info, [Header(b, 7, Undone()), ReorgNotice(ReorgData(1)), TakeReorg(Ok(info)),
                                            Header(b + 20, 8, Undone()), Header(40, 9, Undone().(info := Ok(next)))]);
    BlockStarts(r);
    FirstIsTrue(r);
    StartsOver(r, 1, info);
    StartsLate(r, 3, 7);
    NextEpochOpens(r, 4, next);
    NoneCounted(r, 0, 5);
    assert r.worlds[0].ticks == [];
  }
}
