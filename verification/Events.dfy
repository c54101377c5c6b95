/** Confirmation events: whose count, and whose do not matter. */
module Events {
  import opened Primitives
  import opened AttestationInfos
  import opened States
  import opened Runs
  import opened Steps
  import opened Accounting
  import opened Conservation

  predicate Foreign(stakers: set<Felt>, input: Input) {
    input.Event? && input.staker !in stakers
  }

  /** The inputs without the foreign events. */
  function DropForeign(stakers: set<Felt>, inputs: seq<Input>): seq<Input> {
    if inputs == [] then []
    else
      var last := |inputs| - 1;
      DropForeign(stakers, inputs[..last]) + if Foreign(stakers, inputs[last]) then [] else [inputs[last]]
  }

  lemma ForeignStutters(env: Env, stakers: set<Felt>, w: World, input: Input)
    requires w.state.info.staker in stakers && Foreign(stakers, input)
    ensures Next(env, w, input) == w
  {
    var e := EffectOf(env, w, input);
    assert w.log + e.calls == w.log && w.ticks + e.ticks == w.ticks;
  }

  /** The program watches only these stakers while it takes the inputs. */
  ghost predicate WatchesOnly(env: Env, stakers: set<Felt>, w: World, inputs: seq<Input>) {
    forall i: nat :: i <= |inputs| ==> Fold(env, w, inputs[..i]).state.info.staker in stakers
  }

  lemma WatchesOnlyBefore(env: Env, stakers: set<Felt>, w: World, inputs: seq<Input>)
    requires inputs != [] && WatchesOnly(env, stakers, w, inputs)
    ensures WatchesOnly(env, stakers, w, inputs[..|inputs| - 1])
  {
    var before := inputs[..|inputs| - 1];
    forall i: nat | i <= |before| ensures Fold(env, w, before[..i]).state.info.staker in stakers {
      assert before[..i] == inputs[..i];
    }
  }

  /** Foreign events are stutters: deleting from any run all events of stakers the program does not watch in that
      run changes neither state nor counter nor call. */
  lemma {:induction false} ForeignEventsDoNotMatter(env: Env, stakers: set<Felt>, w: World, inputs: seq<Input>)
    requires WatchesOnly(env, stakers, w, inputs)
    ensures Fold(env, w, DropForeign(stakers, inputs)) == Fold(env, w, inputs)
  {
    if inputs != [] {
      var last := |inputs| - 1;
      var input, before := inputs[last], inputs[..last];
      WatchesOnlyBefore(env, stakers, w, inputs);
      ForeignEventsDoNotMatter(env, stakers, w, before);
      if Foreign(stakers, input) {
        assert Fold(env, w, inputs[..last]).state.info.staker in stakers;
        ForeignStutters(env, stakers, Fold(env, w, before), input);
        assert DropForeign(stakers, inputs) == DropForeign(stakers, before);
      } else {
        FoldSnoc(env, w, DropForeign(stakers, before), input);
      }
    }
  }

  lemma FoldSnoc(env: Env, w: World, inputs: seq<Input>, input: Input)
    ensures Fold(env, w, inputs + [input]) == Next(env, Fold(env, w, inputs), input)
  {
    assert (inputs + [input])[..|inputs|] == inputs;
  }

  /** The events among the first `n` inputs that matched the staker and epoch held when they were processed. */
  ghost function Observed(r: Run, n: nat): nat
    requires r.Shaped() && n <= |r.inputs|
  {
    if n == 0 then 0
    else Observed(r, n - 1) +
         One(!r.worlds[n - 1].halted && MatchingEvent(r.State(n - 1), r.inputs[n - 1]))
  }

  lemma ObservedInEpoch(s: State, n: U64, hash: Felt, a: Answers)
    ensures Ticked(OnHeaderInEpoch(s, n, hash, a), ObservedCount) == 0
  {
    if s.AttestationSubmitted? && a.status.Ok? && a.status.value.AcceptedReverted() {
      NoObservation(s.info, s.params, a);
      TickedAfter(CheckAndSubmit(s.info, s.params, a), [AttestationStatus(s.transactionHash, a.status)], [FailureCount],
                  ObservedCount);
    } else if s.Attesting? {
      NoObservation(s.info, s.params, a);
    }
  }

  lemma NoObservation(info: AttestationInfo, params: AttestationParams, a: Answers)
    ensures Ticked(CheckAndSubmit(info, params, a), ObservedCount) == 0
  {
    TickedAfter(Submit(info, params, a), [AttestationDone(info.staker, a.done)], [], ObservedCount);
  }

  lemma ObservedStep(env: Env, w: World, input: Input)
    ensures Ticked(EffectOf(env, w, input), ObservedCount) == One(!w.halted && MatchingEvent(w.state, input))
  {
    if !w.halted && input.Header? {
      if w.state.info.Contains(input.number) {
        ObservedInEpoch(w.state, input.number, input.hash, input.answers);
      } else if input.answers.info.Ok? && input.answers.info.value.Assignable() {
        var s := FromAttestationInfo(env, input.answers.info.value);
        ObservedInEpoch(s, input.number, input.hash, input.answers);
        TickedAfter(OnHeaderInEpoch(s, input.number, input.hash, input.answers),
                    [GetAttestationInfo(env.operationalAddress, input.answers.info)], [], ObservedCount);
      }
    }
  }

  /** The observed count is the number of matching events. */
  lemma {:induction false} ObservedCountIsMatchingEvents(r: Run, n: nat)
    requires r.Valid() && n <= |r.inputs|
    ensures r.worlds[n].Value(ObservedCount) == Observed(r, n)
  {
    if n > 0 {
      ObservedCountIsMatchingEvents(r, n - 1);
      ValueGrows(r, n - 1, ObservedCount);
      ObservedAt(r, n - 1);
    }
  }

  lemma ObservedAt(r: Run, k: nat)
    requires r.Valid() && k < |r.inputs|
    ensures Ticked(r.effects[k], ObservedCount) == One(!r.worlds[k].halted && MatchingEvent(r.State(k), r.inputs[k]))
  {
    assert r.Linked(k);
    ObservedStep(r.env, r.worlds[k], r.inputs[k]);
  }
}
