/** Where the attested block hash comes from. */
module Hashes {
  import opened Primitives
  import opened AttestationInfos
  import opened States
  import opened Runs
  import opened Steps
  import opened Reachability
  import opened Attestations

  /** A completed step learned `hash` as the hash of block `block`: from that block's header or from the node. */
  predicate Reads(input: Input, e: Effect, block: U64, hash: Felt) {
    && e.outcome.Done? && input.Header?
    && ((input.number == block && input.hash == hash) ||
        (e.calls != [] && e.calls[|e.calls| - 1] == GetBlockHash(block, Ok(hash))))
  }

  lemma ReadInEpoch(s: State, n: U64, hash: Felt, a: Answers)
    ensures var e := OnHeaderInEpoch(s, n, hash, a);
            e.outcome.Done? && e.outcome.state.Started() ==>
              || (s.BeforeBlockToAttest? &&
                  Reads(Header(n, hash, a), e, s.blockToAttest, e.outcome.state.params.blockHash))
              || (s.Started() && e.outcome.state.params == s.params)
  {
  }

  /** A held hash was held before the step, in the same session, or read by the step. */
  lemma ReadStep(env: Env, w: World, input: Input)
    requires Coherent(env, w.state) && Next(env, w, input).state.Started()
    ensures var e, next := EffectOf(env, w, input), Next(env, w, input).state;
            && next.info.Assignable()
            && (|| Reads(input, e, Block(env, next), next.params.blockHash)
                || (!Adoption(e) && w.state.Started() && next.params == w.state.params && next.info == w.state.info))
  {
    CoherentStep(env, w, input);
    if !w.halted && input.Header? {
      if w.state.info.Contains(input.number) {
        PhaseInEpoch(w.state, input.number, input.hash, input.answers);
        ReadInEpoch(w.state, input.number, input.hash, input.answers);
      } else if input.answers.info.Ok? && input.answers.info.value.Assignable() {
        var s := FromAttestationInfo(env, input.answers.info.value);
        PhaseInEpoch(s, input.number, input.hash, input.answers);
        ReadInEpoch(s, input.number, input.hash, input.answers);
      }
    }
  }

  /** Input `k` read the hash that the state numbered `i` holds, as the hash of that state's assigned block. */
  ghost predicate SourceOf(r: Run, k: nat, i: nat)
    requires r.Shaped() && k < |r.inputs| && i <= |r.inputs|
  {
    && r.State(i).info.Assignable() && r.State(i).Started()
    && Reads(r.inputs[k], r.effects[k], Block(r.env, r.State(i)), r.State(i).params.blockHash)
  }

  /** Hash freshness. The hash a state holds was read in its own session, that is, since the last adopted
      re-initialisation, and as the hash of that session's assigned block. */
  lemma {:induction false} HashIsFresh(r: Run, i: nat) returns (k: nat)
    requires r.Valid() && i <= |r.inputs| && r.State(i).Started()
    ensures k < i && r.SameSession(k + 1, i) && SourceOf(r, k, i)
    ensures r.State(k + 1).info == r.State(i).info
  {
    ReachableCoherent(r, i - 1);
    ReachableCoherent(r, i);
    assert r.Linked(i - 1);
    ReadStep(r.env, r.worlds[i - 1], r.inputs[i - 1]);
    if Reads(r.inputs[i - 1], r.effects[i - 1], Block(r.env, r.State(i)), r.State(i).params.blockHash) {
      k := i - 1;
    } else {
      k := HashIsFresh(r, i - 1);
    }
  }

  /** The chain as it was at each step of a run: `chain(version, block)` is the hash of a block. */
  datatype Chain = Chain(hashOf: (nat, U64) -> Felt, version: nat -> nat)

  /** Headers and block-hash answers are those of the chain version current at their step. */
  ghost predicate Truthful(r: Run, c: Chain)
    requires r.Shaped()
  {
    forall k: nat :: k < |r.inputs| && r.inputs[k].Header? ==>
      && r.inputs[k].hash == c.hashOf(c.version(k), r.inputs[k].number)
      && forall block, hash ::
           r.effects[k].calls != [] && r.effects[k].calls[|r.effects[k].calls| - 1] == GetBlockHash(block, Ok(hash)) ==>
           hash == c.hashOf(c.version(k), block)
  }

  /** On a chain that changes, an `attest` call carries the current hash of the assigned block whenever every
      change of the chain has been followed, before the hash was read again, by an adopted re-initialisation:
      it is enough that the chain has stood still since the current session began. */
  lemma AttestedHashIsCurrent(r: Run, c: Chain, i: nat, call: Call)
    requires r.Valid() && i < |r.inputs| && Sends(r, i, call) && Truthful(r, c)
    requires forall k: nat :: k < i && r.SameSession(k + 1, i) ==> c.version(k) == c.version(i)
    ensures r.State(i).info.Assignable()
    ensures call.blockHash == c.hashOf(c.version(i), Block(r.env, r.State(i)))
  {
    SendingStep(r, i, call);
    var k := HashIsFresh(r, i);
    assert call.blockHash == r.State(i).params.blockHash;
  }
}
