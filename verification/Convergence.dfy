/** Runs that saw different parts of a chain agree once they are past the block to attest. */
module Convergence {
  import opened Primitives
  import opened AttestationInfos
  import opened States
  import opened Runs
  import opened Steps

  /** The hash of every block of one chain. */
  type Hashes = U64 -> Felt

  /** The state every observer of the chain reaches between the assigned block and its window. */
  function Settled(env: Env, info: AttestationInfo, chain: Hashes): State
    requires info.Assignable()
  {
    var b := AssignedBlock(env, info);
    Attesting(info, ParamsFor(info, b, chain(b)))
  }

  /** Still before the assigned block, or settled. */
  predicate OnTrack(env: Env, info: AttestationInfo, chain: Hashes, s: State) {
    info.Assignable() && (s == FromAttestationInfo(env, info) || s == Settled(env, info, chain))
  }

  /** A header of the chain, with a node that answers for the chain or fails to answer. */
  predicate OfChain(env: Env, info: AttestationInfo, chain: Hashes, input: Input)
    requires info.Assignable()
  {
    && input.Header? && input.hash == chain(input.number)
    && (input.answers.blockHash.Ok? ==> input.answers.blockHash.value == chain(AssignedBlock(env, info)))
  }

  lemma TrackStep(env: Env, info: AttestationInfo, chain: Hashes, s: State, input: Input)
    requires OnTrack(env, info, chain, s) && OfChain(env, info, chain, input) && info.Sane()
    requires input.number < AssignedBlock(env, info) + MIN_ATTESTATION_WINDOW
    ensures var e := OnHeaderInEpoch(s, input.number, input.hash, input.answers);
            && !e.outcome.Panicked? && e.ticks == []
            && (forall call :: call in e.calls ==> call.GetBlockHash?)
            && (e.outcome.Done? ==> OnTrack(env, info, chain, e.outcome.state))
            && (s == Settled(env, info, chain) ==> e.outcome == Done(s))
            && (e.outcome.Done? && input.number >= AssignedBlock(env, info) ==>
                e.outcome.state == Settled(env, info, chain))
  {
    AssignedBlockPlacement(env, info);
  }

  /** A run starts on track, for every chain. */
  lemma StartsOnTrack(r: Run, chain: Hashes)
    requires r.Valid()
    ensures OnTrack(r.env, r.first, chain, r.State(0)) && !r.worlds[0].halted
  {
  }

  /** A later session begins on track: after a reorg, and after the header of the chain that opened it. */
  lemma SessionsBeginOnTrack(r: Run, k: nat, info: AttestationInfo, chain: Hashes)
    requires r.Valid() && k < |r.inputs| && r.Adopts(k) && r.State(k + 1).info == info
    requires r.inputs[k].Header? ==> info.Assignable() && OfChain(r.env, info, chain, r.inputs[k])
    ensures OnTrack(r.env, info, chain, r.State(k + 1)) && !r.worlds[k + 1].halted
  {
    assert r.Linked(k);
    AdoptionStep(r.env, r.worlds[k], r.inputs[k]);
    if r.inputs[k].Header? {
      var input := r.inputs[k];
      OpeningStep(r.env, info, chain, input);
    }
  }

  lemma OpeningStep(env: Env, info: AttestationInfo, chain: Hashes, input: Input)
    requires info.Assignable() && OfChain(env, info, chain, input)
    ensures var e := OnHeaderInEpoch(FromAttestationInfo(env, info), input.number, input.hash, input.answers);
            e.outcome.Done? ==> OnTrack(env, info, chain, e.outcome.state)
  {
  }

  /** Input `k` is a header of the chain in this epoch, below b + 11. */
  ghost predicate EarlyHeader(r: Run, k: nat, info: AttestationInfo, chain: Hashes)
    requires r.Shaped() && k < |r.inputs| && info.Assignable()
  {
    && OfChain(r.env, info, chain, r.inputs[k])
    && info.start <= r.inputs[k].number < AssignedBlock(r.env, info) + MIN_ATTESTATION_WINDOW
    && r.inputs[k].number < info.End()
  }

  ghost predicate EarlyHeaders(r: Run, lo: nat, hi: nat, info: AttestationInfo, chain: Hashes)
    requires r.Shaped() && lo <= hi <= |r.inputs|
  {
    info.Sane() && forall k: nat :: lo <= k < hi ==> EarlyHeader(r, k, info, chain)
  }

  /** A session is followed, up to input `hi`, through headers of the chain below b + 11 only. */
  ghost predicate Follows(r: Run, lo: nat, hi: nat, info: AttestationInfo, chain: Hashes)
    requires r.Shaped() && lo <= hi <= |r.inputs|
  {
    && OnTrack(r.env, info, chain, r.State(lo)) && !r.worlds[lo].halted
    && EarlyHeaders(r, lo, hi, info, chain)
  }

  ghost predicate CatchesAt(r: Run, k: nat, info: AttestationInfo)
    requires r.Shaped() && k < |r.inputs| && info.Assignable()
  {
    r.inputs[k].Header? && r.effects[k].outcome.Done? && r.inputs[k].number >= AssignedBlock(r.env, info)
  }

  /** Some header at or above b was handled without error. */
  ghost predicate Caught(r: Run, lo: nat, hi: nat, info: AttestationInfo)
    requires r.Shaped() && lo <= hi <= |r.inputs| && info.Assignable()
  {
    exists k: nat :: lo <= k < hi && CatchesAt(r, k, info)
  }

  lemma {:induction false} TrackRun(r: Run, lo: nat, hi: nat, info: AttestationInfo, chain: Hashes)
    requires r.Valid() && lo <= hi <= |r.inputs| && Follows(r, lo, hi, info, chain)
    ensures OnTrack(r.env, info, chain, r.State(hi)) && !r.worlds[hi].halted
    ensures r.worlds[hi].reorgs == r.worlds[lo].reorgs
    ensures Caught(r, lo, hi, info) ==> r.State(hi) == Settled(r.env, info, chain)
  {
    if lo < hi {
      var k := hi - 1;
      TrackRun(r, lo, k, info, chain);
      assert EarlyHeader(r, k, info, chain);
      var input := r.inputs[k];
      AssignedBlockPlacement(r.env, info);
      HeaderStep(r, k);
      TrackStep(r.env, info, chain, r.State(k), input);
      if Caught(r, lo, hi, info) && !Caught(r, lo, k, info) {
        assert CatchesAt(r, k, info);
      }
    }
  }

  /** Equal stretches are equal up to their last element and there. */
  lemma EqualStretches<T>(s: seq<T>, t: seq<T>, i: nat, j: nat, n: nat)
    requires n > 0 && i + n <= |s| && j + n <= |t|
    ensures s[i..i + n] == t[j..j + n] <==> s[i..i + n - 1] == t[j..j + n - 1] && s[i + n - 1] == t[j + n - 1]
  {
    assert s[i..i + n] == s[i..i + n - 1] + [s[i + n - 1]];
    assert t[j..j + n] == t[j..j + n - 1] + [t[j + n - 1]];
    assert s[i..i + n][..n - 1] == s[i..i + n - 1] && t[j..j + n][..n - 1] == t[j..j + n - 1];
    assert s[i..i + n][n - 1] == s[i + n - 1] && t[j..j + n][n - 1] == t[j + n - 1];
  }

  /** Worlds that differ in their past only. */
  predicate SamePresent(w1: World, w2: World) {
    w1.state == w2.state && w1.reorgs == w2.reorgs && w1.halted == w2.halted
  }

  /** From the same present, the same inputs do the same things. */
  lemma {:induction false} SameContinuation(r1: Run, r2: Run, i1: nat, i2: nat, n: nat)
    requires r1.Valid() && r2.Valid() && r1.env == r2.env
    requires i1 + n <= |r1.inputs| && i2 + n <= |r2.inputs|
    requires r1.inputs[i1..i1 + n] == r2.inputs[i2..i2 + n]
    requires SamePresent(r1.worlds[i1], r2.worlds[i2])
    ensures SamePresent(r1.worlds[i1 + n], r2.worlds[i2 + n])
    ensures r1.effects[i1..i1 + n] == r2.effects[i2..i2 + n]
  {
    if n > 0 {
      EqualStretches(r1.inputs, r2.inputs, i1, i2, n);
      SameContinuation(r1, r2, i1, i2, n - 1);
      SameStep(r1, r2, i1 + n - 1, i2 + n - 1);
      EqualStretches(r1.effects, r2.effects, i1, i2, n);
    }
  }

  lemma SameStep(r1: Run, r2: Run, k1: nat, k2: nat)
    requires r1.Valid() && r2.Valid() && r1.env == r2.env && k1 < |r1.inputs| && k2 < |r2.inputs|
    requires r1.inputs[k1] == r2.inputs[k2] && SamePresent(r1.worlds[k1], r2.worlds[k2])
    ensures r1.effects[k1] == r2.effects[k2] && SamePresent(r1.worlds[k1 + 1], r2.worlds[k2 + 1])
  {
    assert r1.Linked(k1) && r2.Linked(k2);
    SameEffect(r1.env, r1.worlds[k1], r2.worlds[k2], r1.inputs[k1]);
  }

  lemma SameEffect(env: Env, w1: World, w2: World, input: Input)
    requires SamePresent(w1, w2)
    ensures EffectOf(env, w1, input) == EffectOf(env, w2, input)
    ensures SamePresent(Next(env, w1, input), Next(env, w2, input))
  {
  }

  /** A session is followed from `lo` to `hi`, and its assigned block has been caught. */
  ghost predicate CatchesUp(r: Run, lo: nat, hi: nat, info: AttestationInfo, chain: Hashes)
    requires r.Shaped() && lo <= hi <= |r.inputs|
  {
    Follows(r, lo, hi, info, chain) && Caught(r, lo, hi, info)
  }

  /** Delivery gaps and restarts do not matter. Two runs that follow the same session of one chain, each with at
      least one header in [b, b + 11) handled without error, whatever else they missed and whether the hash of
      block b came from its header or from the node, do exactly the same on every common continuation. */
  lemma GapsConverge(r1: Run, r2: Run, lo1: nat, hi1: nat, lo2: nat, hi2: nat, n: nat,
                     info: AttestationInfo, chain: Hashes)
    requires r1.Valid() && r2.Valid() && r1.env == r2.env
    requires lo1 <= hi1 && hi1 + n <= |r1.inputs| && lo2 <= hi2 && hi2 + n <= |r2.inputs|
    requires CatchesUp(r1, lo1, hi1, info, chain) && CatchesUp(r2, lo2, hi2, info, chain)
    requires r1.worlds[lo1].reorgs == r2.worlds[lo2].reorgs
    requires r1.inputs[hi1..hi1 + n] == r2.inputs[hi2..hi2 + n]
    ensures r1.State(hi1) == r2.State(hi2) == Settled(r1.env, info, chain)
    ensures SamePresent(r1.worlds[hi1 + n], r2.worlds[hi2 + n])
    ensures r1.effects[hi1..hi1 + n] == r2.effects[hi2..hi2 + n]
  {
    TrackRun(r1, lo1, hi1, info, chain);
    TrackRun(r2, lo2, hi2, info, chain);
    SameContinuation(r1, r2, hi1, hi2, n);
  }

  /** Restarts do not matter. A process that starts anew on the info of a session, with whatever headers below b + 11,
      one of them at or above b and handled without error, then does exactly what the process did that followed the
      session all along, provided no reorg was waiting there. */
  lemma RestartConverges(r1: Run, r2: Run, lo1: nat, hi1: nat, hi2: nat, n: nat, chain: Hashes)
    requires r1.Valid() && r2.Valid() && r1.env == r2.env
    requires lo1 <= hi1 && hi1 + n <= |r1.inputs| && hi2 + n <= |r2.inputs|
    requires CatchesUp(r1, lo1, hi1, r2.first, chain)
    requires EarlyHeaders(r2, 0, hi2, r2.first, chain) && Caught(r2, 0, hi2, r2.first)
    requires r1.worlds[lo1].reorgs == []
    requires r1.inputs[hi1..hi1 + n] == r2.inputs[hi2..hi2 + n]
    ensures r1.State(hi1) == r2.State(hi2) == Settled(r1.env, r2.first, chain)
    ensures SamePresent(r1.worlds[hi1 + n], r2.worlds[hi2 + n])
    ensures r1.effects[hi1..hi1 + n] == r2.effects[hi2..hi2 + n]
  {
    StartsOnTrack(r2, chain);
    GapsConverge(r1, r2, lo1, hi1, 0, hi2, n, r2.first, chain);
  }
}
