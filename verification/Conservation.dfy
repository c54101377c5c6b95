/** Where every submitted transaction ends, and how every session ends. */
module Conservation {
  import opened Primitives
  import opened AttestationInfos
  import opened States
  import opened Runs
  import opened Steps
  import opened Attestations
  import opened Accounting

  /** How a live transaction stops being the one the program watches. */
  datatype Fate = Watched | Confirmed | SeenReverted | Expired | EpochChanged | Reorged

  predicate ReportsSuccess(calls: seq<Call>, tx: Felt) {
    && calls != [] && calls[0].AttestationStatus? && calls[0].transactionHash == tx
    && calls[0].status.Ok? && calls[0].status.value.AcceptedSucceeded()
  }

  /** The fate a step brings to the transaction live in `s`, read off the input and the node's answers. */
  function FateOf(s: State, input: Input, e: Effect): Fate
    requires s.AttestationSubmitted?
  {
    if !e.outcome.Done? then Watched
    else if Adoption(e) then (if input.Header? then EpochChanged else Reorged)
    else if MatchingEvent(s, input) || ReportsSuccess(e.calls, s.transactionHash) then Confirmed
    else if ReportsRevert(e.calls, s.transactionHash) then SeenReverted
    else if input.Header? && s.params.InWindow(input.number) == Position.After then Expired
    else Watched
  }

  ghost function FateAt(r: Run, k: nat): Fate
    requires r.Shaped() && k < |r.inputs|
  {
    if r.State(k).AttestationSubmitted? then FateOf(r.State(k), r.inputs[k], r.effects[k]) else Watched
  }

  /** The fates of the first `n` steps. */
  ghost function Fates(r: Run, n: nat): seq<Fate>
    requires r.Shaped() && n <= |r.inputs|
  {
    seq(n, k requires 0 <= k < n => FateAt(r, k))
  }

  /** The books balance: every transaction counted as submitted has met exactly one fate or is still watched,
      and the confirmed ones are those that met a confirmation. */
  predicate Balanced(submitted: nat, confirmed: nat, fates: seq<Fate>, live: bool) {
    var met := multiset(fates);
    && submitted == met[Confirmed] + met[SeenReverted] + met[Expired] + met[EpochChanged] + met[Reorged] + One(live)
    && confirmed == met[Confirmed]
  }

  lemma BalanceGrows(submitted: nat, confirmed: nat, fates: seq<Fate>, live: bool, fate: Fate, more: nat, next: bool)
    requires Balanced(submitted, confirmed, fates, live)
    requires more + One(live) == One(fate != Watched) + One(next)
    ensures Balanced(submitted + more, confirmed + One(fate == Confirmed), fates + [fate], next)
  {
  }

  function One(b: bool): nat {
    if b then 1 else 0
  }

  /** The books of one step that starts with a live transaction. */
  predicate LiveBooks(s: State, input: Input, e: Effect, next: State)
    requires s.AttestationSubmitted?
  {
    var fate := FateOf(s, input, e);
    && Ticked(e, SubmittedCount) + 1 == One(fate != Watched) + One(next.AttestationSubmitted?)
    && Ticked(e, ConfirmedCount) == One(fate == Confirmed)
  }

  lemma TickedAfter(e: Effect, callsBefore: seq<Call>, ticksBefore: seq<Counter>, counter: Counter)
    ensures Ticked(e.After(callsBefore, ticksBefore), counter) == multiset(ticksBefore)[counter] + Ticked(e, counter)
  {
  }

  /** Submitting counts exactly when it leaves a live transaction; it confirms and misses nothing. */
  lemma CheckBooks(info: AttestationInfo, params: AttestationParams, a: Answers)
    ensures var e := CheckAndSubmit(info, params, a);
            && Ticked(e, SubmittedCount) == One(e.outcome.Done? && e.outcome.state.AttestationSubmitted?)
            && Ticked(e, ConfirmedCount) == 0 && Ticked(e, MissedCount) == 0
            && !e.outcome.Panicked?
            && e.calls != [] && e.calls[0].AttestationDone?
  {
    var asked := [AttestationDone(info.staker, a.done)];
    TickedAfter(Submit(info, params, a), asked, [], SubmittedCount);
    TickedAfter(Submit(info, params, a), asked, [], ConfirmedCount);
    TickedAfter(Submit(info, params, a), asked, [], MissedCount);
  }

  /** What a reported revert does to the books. */
  lemma ReplaceBooks(s: State, a: Answers)
    requires s.AttestationSubmitted?
    ensures var e := CheckAndSubmit(s.info, s.params, a)
                       .After([AttestationStatus(s.transactionHash, a.status)], [FailureCount]);
            && Ticked(e, SubmittedCount) == One(e.outcome.Done? && e.outcome.state.AttestationSubmitted?)
            && Ticked(e, ConfirmedCount) == 0 && Ticked(e, MissedCount) == 0
            && !e.outcome.Panicked?
            && e.calls != [] && e.calls[0] == AttestationStatus(s.transactionHash, a.status)
  {
    CheckBooks(s.info, s.params, a);
    var check := CheckAndSubmit(s.info, s.params, a);
    var asked := [AttestationStatus(s.transactionHash, a.status)];
    TickedAfter(check, asked, [FailureCount], SubmittedCount);
    TickedAfter(check, asked, [FailureCount], ConfirmedCount);
    TickedAfter(check, asked, [FailureCount], MissedCount);
  }

  /** What a step did to the three deciding counters. */
  predicate Books(e: Effect, submitted: nat, confirmed: nat, missed: nat) {
    && Ticked(e, SubmittedCount) == submitted
    && Ticked(e, ConfirmedCount) == confirmed
    && Ticked(e, MissedCount) == missed
  }

  lemma BooksOf(e: Effect)
    requires |e.ticks| <= 1
    ensures Books(e, One(e.ticks == [SubmittedCount]), One(e.ticks == [ConfirmedCount]), One(e.ticks == [MissedCount]))
  {
    if e.ticks != [] {
      assert e.ticks == [e.ticks[0]];
    }
  }

  /** The fate of a live transaction under a header of its epoch, with the books that go with it. */
  lemma ConfirmBooks(s: State, n: U64, a: Answers) returns (fate: Fate)
    requires s.AttestationSubmitted?
    ensures var e := Confirm(s, n, a);
            && Books(e, One(e.outcome.Done? && e.outcome.state.AttestationSubmitted? && fate != Watched),
                     One(fate == Confirmed), Ticked(e, MissedCount))
            && Ticked(e, MissedCount) <= One(fate == Expired)
            && !e.outcome.Panicked?
            && e.calls != [] && !e.calls[0].GetAttestationInfo?
            && (e.outcome.Kept? ==> fate == Watched)
            && (fate == Watched && e.outcome.Done? ==> e.outcome.state == s)
            && (fate == Confirmed || fate == Expired ==> e.outcome == Done(WaitingForNextEpoch(s.info)))
            && (forall hash :: FateOf(s, Header(n, hash, a), e) == fate)
  {
    var e := Confirm(s, n, a);
    fate := FateOf(s, Header(n, 0, a), e);
    if s.params.InWindow(n) != Position.After && a.status.Ok? && a.status.value.AcceptedReverted() {
      ReplaceBooks(s, a);
    } else {
      BooksOf(e);
    }
  }

  lemma LiveBooksInEpoch(s: State, n: U64, hash: Felt, a: Answers)
    requires s.AttestationSubmitted?
    ensures var e := OnHeaderInEpoch(s, n, hash, a);
            !Adoption(e) && LiveBooks(s, Header(n, hash, a), e, if e.outcome.Done? then e.outcome.state else s)
  {
    var fate := ConfirmBooks(s, n, a);
  }

  lemma AdoptionBooks(env: Env, w: World, input: Input)
    requires Adoption(EffectOf(env, w, input))
    ensures Ticked(EffectOf(env, w, input), SubmittedCount) == 0
    ensures Ticked(EffectOf(env, w, input), ConfirmedCount) == 0
    ensures Ticked(EffectOf(env, w, input), MissedCount) == 0
    ensures !Next(env, w, input).state.AttestationSubmitted? && !Next(env, w, input).state.WaitingForNextEpoch?
  {
    AdoptionStep(env, w, input);
  }

  lemma LiveBooksOnEvent(s: State, input: Input)
    requires s.AttestationSubmitted? && input.Event?
    ensures var e := OnEvent(s, input.staker, input.epoch);
            e.outcome.Done? && !Adoption(e) && LiveBooks(s, input, e, e.outcome.state)
  {
  }

  lemma LiveBooksOnAdoption(env: Env, w: World, input: Input)
    requires w.state.AttestationSubmitted? && Adoption(EffectOf(env, w, input))
    ensures LiveBooks(w.state, input, EffectOf(env, w, input), Next(env, w, input).state)
  {
    AdoptionBooks(env, w, input);
  }

  /** Inputs that do nothing to the live transaction's session. */
  lemma LiveBooksOtherwise(env: Env, w: World, input: Input)
    requires w.state.AttestationSubmitted? && !Adoption(EffectOf(env, w, input))
    requires w.halted || (!input.Event? && (input.Header? ==> !w.state.info.Contains(input.number)))
    ensures LiveBooks(w.state, input, EffectOf(env, w, input), Next(env, w, input).state)
  {
    if input.Header? && !w.state.info.Contains(input.number) {
      OutsideStep(env, w, input);
    }
    BooksOf(EffectOf(env, w, input));
  }

  lemma LiveBooksStep(env: Env, w: World, input: Input)
    requires w.state.AttestationSubmitted?
    ensures LiveBooks(w.state, input, EffectOf(env, w, input), Next(env, w, input).state)
  {
    if Adoption(EffectOf(env, w, input)) {
      LiveBooksOnAdoption(env, w, input);
    } else if !w.halted && input.Event? {
      LiveBooksOnEvent(w.state, input);
    } else if !w.halted && input.Header? && w.state.info.Contains(input.number) {
      LiveBooksInEpoch(w.state, input.number, input.hash, input.answers);
    } else {
      LiveBooksOtherwise(env, w, input);
    }
  }

  lemma IdleBooksInEpoch(s: State, n: U64, hash: Felt, a: Answers)
    requires !s.AttestationSubmitted?
    ensures var e := OnHeaderInEpoch(s, n, hash, a);
            && Ticked(e, SubmittedCount) == One(e.outcome.Done? && e.outcome.state.AttestationSubmitted?)
            && Ticked(e, ConfirmedCount) == 0
  {
    var e := OnHeaderInEpoch(s, n, hash, a);
    if s.Attesting? && s.params.InWindow(n) == Inside {
      CheckBooks(s.info, s.params, a);
    } else {
      BooksOf(e);
    }
  }

  lemma IdleBooksOnEvent(s: State, input: Input)
    requires !s.AttestationSubmitted? && input.Event?
    ensures var e := OnEvent(s, input.staker, input.epoch);
            && Ticked(e, SubmittedCount) == 0 && Ticked(e, ConfirmedCount) == 0
            && e.outcome.Done? && !e.outcome.state.AttestationSubmitted?
  {
    BooksOf(OnEvent(s, input.staker, input.epoch));
  }

  lemma IdleBooksOtherwise(env: Env, w: World, input: Input)
    requires !w.state.AttestationSubmitted? && !Adoption(EffectOf(env, w, input))
    requires w.halted || (!input.Event? && (input.Header? ==> !w.state.info.Contains(input.number)))
    ensures Ticked(EffectOf(env, w, input), SubmittedCount) == 0
    ensures Ticked(EffectOf(env, w, input), ConfirmedCount) == 0
    ensures Next(env, w, input).state == w.state
  {
    if input.Header? && !w.state.info.Contains(input.number) {
      OutsideStep(env, w, input);
    }
    BooksOf(EffectOf(env, w, input));
  }

  lemma IdleBooksStep(env: Env, w: World, input: Input)
    requires !w.state.AttestationSubmitted?
    ensures Ticked(EffectOf(env, w, input), SubmittedCount) == One(Next(env, w, input).state.AttestationSubmitted?)
    ensures Ticked(EffectOf(env, w, input), ConfirmedCount) == 0
  {
    if Adoption(EffectOf(env, w, input)) {
      AdoptionBooks(env, w, input);
    } else if !w.halted && input.Header? && w.state.info.Contains(input.number) {
      IdleBooksInEpoch(w.state, input.number, input.hash, input.answers);
    } else if !w.halted && input.Event? {
      IdleBooksOnEvent(w.state, input);
    } else {
      IdleBooksOtherwise(env, w, input);
    }
  }

  /** The books of any step of a run. */
  lemma BooksAt(r: Run, k: nat)
    requires r.Valid() && k < |r.inputs|
    ensures Ticked(r.effects[k], SubmittedCount) + One(r.State(k).AttestationSubmitted?)
            == One(FateAt(r, k) != Watched) + One(r.State(k + 1).AttestationSubmitted?)
    ensures Ticked(r.effects[k], ConfirmedCount) == One(FateAt(r, k) == Confirmed)
  {
    assert r.Linked(k);
    if r.State(k).AttestationSubmitted? {
      LiveBooksStep(r.env, r.worlds[k], r.inputs[k]);
    } else {
      IdleBooksStep(r.env, r.worlds[k], r.inputs[k]);
    }
  }

  lemma FatesGrow(r: Run, k: nat)
    requires r.Shaped() && k < |r.inputs|
    ensures Fates(r, k + 1) == Fates(r, k) + [FateAt(r, k)]
  {
  }

  ghost predicate BalancedAt(r: Run, n: nat)
    requires r.Shaped() && n <= |r.inputs|
  {
    Balanced(r.worlds[n].Value(SubmittedCount), r.worlds[n].Value(ConfirmedCount), Fates(r, n),
             r.State(n).AttestationSubmitted?)
  }

  lemma BalanceStep(r: Run, k: nat)
    requires r.Valid() && k < |r.inputs| && BalancedAt(r, k)
    ensures BalancedAt(r, k + 1)
  {
    var submitted, confirmed := r.worlds[k].Value(SubmittedCount), r.worlds[k].Value(ConfirmedCount);
    var more, moreConfirmed := Ticked(r.effects[k], SubmittedCount), Ticked(r.effects[k], ConfirmedCount);
    var fates, live, next := Fates(r, k), r.State(k).AttestationSubmitted?, r.State(k + 1).AttestationSubmitted?;
    assert r.worlds[k + 1].Value(SubmittedCount) == submitted + more by { ValueGrows(r, k, SubmittedCount); }
    assert r.worlds[k + 1].Value(ConfirmedCount) == confirmed + moreConfirmed by { ValueGrows(r, k, ConfirmedCount); }
    var fate := FateAt(r, k);
    BooksAt(r, k);
    FatesGrow(r, k);
    assert Balanced(submitted + more, confirmed + moreConfirmed, fates + [fate], next) by {
      BalanceGrows(submitted, confirmed, fates, live, fate, more, next);
    }
  }

  lemma NothingAtStart(r: Run)
    requires r.Valid()
    ensures BalancedAt(r, 0)
  {
    assert r.worlds[0].ticks == [];
  }

  /** Transaction conservation. In every run the transactions counted as submitted are those confirmed, those seen
      reverted, those whose window expired, those dropped at an epoch change or a reorg, and the one still live;
      and the confirmed count is the number of times a live transaction met a confirmation. */
  lemma {:induction false} TransactionConservation(r: Run, n: nat)
    requires r.Valid() && n <= |r.inputs|
    ensures BalancedAt(r, n)
  {
    if n == 0 {
      NothingAtStart(r);
    } else {
      TransactionConservation(r, n - 1);
      BalanceStep(r, n - 1);
    }
  }

  /** No transaction meets two fates. When a live transaction has met one, the next one to meet any was sent after
      that, or was sent by the very step that saw the former reverted. */
  lemma OneFatePerTransaction(r: Run, p: nat, q: nat) returns (k: nat, call: Call)
    requires r.Valid() && p < q < |r.inputs|
    requires FateAt(r, p) != Watched && FateAt(r, q) != Watched
    ensures p <= k < q && Sends(r, k, call) && call.sending == Sent(r.State(q).transactionHash, true)
    ensures k == p ==> FateAt(r, p) == SeenReverted
  {
    k, call := LiveTransactionWasSent(r, q);
    if k < p {
      BooksAt(r, p);
      AccountedAt(r, p);
      forall c | c in r.effects[p].calls ensures !Bears(c, CountedSend) {
        assert !Sends(r, p, c);
      }
      TallyNone(r.effects[p].calls, CountedSend);
    } else if k == p {
      SendingStep(r, p, call);
    }
  }

  // ---------- One outcome per session ----------

  /** Confirmed plus missed. */
  ghost function Decided(w: World): nat {
    w.Value(ConfirmedCount) + w.Value(MissedCount)
  }

  lemma DecisionInEpoch(s: State, n: U64, hash: Felt, a: Answers)
    ensures var e := OnHeaderInEpoch(s, n, hash, a);
            var next := if e.outcome.Done? then e.outcome.state else s;
            Ticked(e, ConfirmedCount) + Ticked(e, MissedCount) + One(!next.WaitingForNextEpoch?)
            <= One(!s.WaitingForNextEpoch?)
  {
    if s.Attesting? {
      CheckBooks(s.info, s.params, a);
    } else if s.AttestationSubmitted? {
      var fate := ConfirmBooks(s, n, a);
    }
  }

  lemma DecisionOnEvent(s: State, staker: Felt, epoch: U64)
    ensures var e := OnEvent(s, staker, epoch);
            && e.outcome.Done?
            && Ticked(e, ConfirmedCount) + Ticked(e, MissedCount) + One(!e.outcome.state.WaitingForNextEpoch?)
               <= One(!s.WaitingForNextEpoch?)
  {
    var e := OnEvent(s, staker, epoch);
    if |e.ticks| <= 1 {
      BooksOf(e);
    }
  }

  lemma DecisionStep(env: Env, w: World, input: Input)
    requires !Adoption(EffectOf(env, w, input))
    ensures var e := EffectOf(env, w, input);
            Ticked(e, ConfirmedCount) + Ticked(e, MissedCount) + One(!Next(env, w, input).state.WaitingForNextEpoch?)
            <= One(!w.state.WaitingForNextEpoch?)
  {
    if !w.halted && input.Header? {
      DecisionInEpoch(w.state, input.number, input.hash, input.answers);
    } else if !w.halted && input.Event? {
      DecisionOnEvent(w.state, input.staker, input.epoch);
    } else {
      BooksOf(EffectOf(env, w, input));
    }
  }

  lemma DecidedGrows(r: Run, k: nat)
    requires r.Valid() && k < |r.inputs|
    ensures Decided(r.worlds[k + 1]) + One(!r.State(k + 1).WaitingForNextEpoch?) <=
            Decided(r.worlds[k]) + if r.Adopts(k) then 1 else One(!r.State(k).WaitingForNextEpoch?)
  {
    ValueGrows(r, k, ConfirmedCount);
    ValueGrows(r, k, MissedCount);
    assert r.Linked(k);
    if r.Adopts(k) {
      AdoptionBooks(r.env, r.worlds[k], r.inputs[k]);
    } else {
      DecisionStep(r.env, r.worlds[k], r.inputs[k]);
    }
  }

  /** A session is decided at most once: over any stretch of it, confirmed and missed together grow by at most
      one, and not at all once the machine waits for the next epoch. */
  lemma {:induction false} OneOutcomePerSession(r: Run, i: nat, j: nat)
    requires r.Valid() && i <= j <= |r.inputs| && r.SameSession(i, j)
    ensures Decided(r.worlds[j]) + One(!r.State(j).WaitingForNextEpoch?) <=
            Decided(r.worlds[i]) + One(!r.State(i).WaitingForNextEpoch?)
  {
    if i < j {
      OneOutcomePerSession(r, i, j - 1);
      assert !r.Adopts(j - 1);
      DecidedGrows(r, j - 1);
    }
  }

  /** The number of infos adopted so far, the one at start-up included. */
  ghost function Adopted(r: Run, n: nat): nat
    requires r.Shaped() && n <= |r.inputs|
  {
    if n == 0 then 1 else Adopted(r, n - 1) + One(r.Adopts(n - 1))
  }

  /** Over a whole run, sessions bound outcomes. */
  lemma {:induction false} OutcomesAreSessions(r: Run, n: nat)
    requires r.Valid() && n <= |r.inputs|
    ensures Decided(r.worlds[n]) + One(!r.State(n).WaitingForNextEpoch?) <= Adopted(r, n)
  {
    if n > 0 {
      OutcomesAreSessions(r, n - 1);
      DecidedGrows(r, n - 1);
    }
  }
}
