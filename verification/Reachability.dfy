/** What every reachable state looks like. */
module Reachability {
  import opened Primitives
  import opened AttestationInfos
  import opened States
  import opened Runs
  import opened Steps

  /** The assigned block of the session a state belongs to. */
  function Block(env: Env, s: State): U64
    requires s.info.Assignable()
  {
    AssignedBlock(env, s.info)
  }

  /** The stored block and window are those the state's own info prescribes. */
  predicate Coherent(env: Env, s: State) {
    && s.info.Assignable()
    && (s.BeforeBlockToAttest? ==> s.blockToAttest == Block(env, s))
    && (s.Started() ==> s.params == ParamsFor(s.info, Block(env, s), s.params.blockHash))
  }

  lemma CoherentInEpoch(env: Env, s: State, n: U64, hash: Felt, a: Answers)
    requires Coherent(env, s)
    ensures var e := OnHeaderInEpoch(s, n, hash, a); e.outcome.Done? ==> Coherent(env, e.outcome.state)
  {
  }

  lemma CoherentStep(env: Env, w: World, input: Input)
    requires Coherent(env, w.state)
    ensures Coherent(env, Next(env, w, input).state)
  {
    if !w.halted && input.Header? {
      var answer := input.answers.info;
      var s := if w.state.info.Contains(input.number) || answer.Err? || !answer.value.Assignable() then w.state
               else FromAttestationInfo(env, answer.value);
      CoherentInEpoch(env, s, input.number, input.hash, input.answers);
    }
  }

  lemma {:induction false} ReachableCoherent(r: Run, i: nat)
    requires r.Valid() && i <= |r.inputs|
    ensures Coherent(r.env, r.State(i))
  {
    if i > 0 {
      ReachableCoherent(r, i - 1);
      assert r.Linked(i - 1);
      CoherentStep(r.env, r.worlds[i - 1], r.inputs[i - 1]);
    }
  }

  /** The exact window of a coherent state whose info is sane: with b the assigned block and w the window,
      b lies in [start, end - w), the stored window is [b + 11, b + w), and it closes before the epoch does. */
  predicate ExactWindow(env: Env, s: State)
    requires s.info.Assignable()
  {
    var b := Block(env, s);
    && s.info.start <= b < s.info.End() - s.info.window
    && WrappingAdd(s.info.start, s.info.epochLen) == s.info.End()
    && (s.BeforeBlockToAttest? ==> s.blockToAttest == b)
    && (s.Started() ==>
        && s.params.windowStart == b + MIN_ATTESTATION_WINDOW
        && s.params.windowEnd == b + s.info.window <= s.info.End() - 1)
  }

  lemma CoherentWindow(env: Env, s: State)
    requires Coherent(env, s) && s.info.Sane()
    ensures ExactWindow(env, s)
  {
    AssignedBlockPlacement(env, s.info);
  }

  lemma ReachableWindow(r: Run, i: nat)
    requires r.Valid() && i <= |r.inputs|
    requires r.State(i).info.Sane()
    ensures r.State(i).info.Assignable() && ExactWindow(r.env, r.State(i))
  {
    ReachableCoherent(r, i);
    CoherentWindow(r.env, r.State(i));
  }

  /** The node answered with an info whose window is as long as its epoch. */
  predicate DegenerateAnswer(e: Effect) {
    && e.calls != [] && e.calls[0].GetAttestationInfo? && e.calls[0].info.Ok?
    && e.calls[0].info.value.window == e.calls[0].info.value.epochLen
  }

  lemma PanicsExactly(env: Env, w: World, input: Input)
    requires !w.halted
    ensures EffectOf(env, w, input).outcome.Panicked? <==> DegenerateAnswer(EffectOf(env, w, input))
  {
    if input.Header? {
      var answer := input.answers.info;
      if w.state.info.Contains(input.number) {
        PhaseInEpoch(w.state, input.number, input.hash, input.answers);
      } else if answer.Ok? && answer.value.Assignable() {
        PhaseInEpoch(FromAttestationInfo(env, answer.value), input.number, input.hash, input.answers);
      }
    }
  }

  lemma HaltStep(env: Env, w: World, input: Input)
    ensures Next(env, w, input).halted <==> w.halted || DegenerateAnswer(EffectOf(env, w, input))
  {
    if !w.halted {
      PanicsExactly(env, w, input);
    }
  }

  /** The node has given a degenerate answer before input `i`. */
  ghost predicate DegenerateBefore(r: Run, i: nat)
    requires r.Shaped() && i <= |r.inputs|
  {
    exists k: nat :: k < i && DegenerateAnswer(r.effects[k])
  }

  /** The process dies exactly when the node once answers with an info whose window is as long as its epoch. */
  lemma {:induction false} HaltsExactly(r: Run, i: nat)
    requires r.Valid() && i <= |r.inputs|
    ensures r.worlds[i].halted <==> DegenerateBefore(r, i)
  {
    if i > 0 {
      HaltsExactly(r, i - 1);
      assert r.Linked(i - 1);
      HaltStep(r.env, r.worlds[i - 1], r.inputs[i - 1]);
      assert DegenerateBefore(r, i) <==> DegenerateBefore(r, i - 1) || DegenerateAnswer(r.effects[i - 1]);
    }
  }
}
