/** The cached attestation info against the chain's schedule of epochs. */
module Epochs {
  import opened Primitives
  import opened AttestationInfos
  import opened States
  import opened Runs
  import opened Steps

  /** The chain's epochs up to a horizon: `entry(n)` is the info of the epoch that block `n` belongs to. */
  datatype Schedule = Schedule(entry: U64 -> AttestationInfo, horizon: U64)

  /** The epochs partition the block numbers below the horizon: every block lies in its own epoch, and all blocks
      of an epoch agree on it. */
  ghost predicate Partitions(s: Schedule) {
    && (forall n: U64 :: n < s.horizon ==> s.entry(n).Contains(n) && s.entry(n).Assignable())
    && (forall m: U64, n: U64 :: m < s.horizon && n < s.horizon && s.entry(m).Contains(n) ==> s.entry(n) == s.entry(m))
  }

  /** Some epoch of the schedule. */
  ghost predicate Scheduled(s: Schedule, info: AttestationInfo) {
    exists m: U64 :: m < s.horizon && s.entry(m) == info
  }

  /** An info adopted while a header is handled is the one of the header's block; on a reorg the node may answer
      for any epoch of the chain. Answers that nobody asked for, or that were not adopted, are free. */
  ghost predicate AnswersSchedule(s: Schedule, input: Input, e: Effect) {
    Adoption(e) && e.calls[0].info.Ok? ==>
      if input.Header? then input.number < s.horizon && e.calls[0].info.value == s.entry(input.number)
      else Scheduled(s, e.calls[0].info.value)
  }

  ghost predicate AnswersScheduleAt(r: Run, s: Schedule, k: nat)
    requires r.Shaped() && k < |r.inputs|
  {
    AnswersSchedule(s, r.inputs[k], r.effects[k])
  }

  /** Epochs of forty blocks with a window of twenty. */
  function RegularInfo(staker: Felt, operational: Felt, stake: U128, n: U64): AttestationInfo {
    var epoch: U64 := if n < 0x1_0000_0000_0000 then n / 40 else 0;
    AttestationInfo(staker, operational, stake, 40, epoch, 40 * epoch, 20)
  }

  lemma RegularEpoch(m: nat, n: nat)
    ensures 40 * (n / 40) <= n < 40 * (n / 40) + 40
    ensures 40 * (m / 40) <= n < 40 * (m / 40) + 40 ==> n / 40 == m / 40
  {
  }

  lemma RegularInfoCovers(staker: Felt, operational: Felt, stake: U128, n: U64)
    requires n < 0x1_0000_0000_0000
    ensures var info := RegularInfo(staker, operational, stake, n);
            info.Assignable() && forall k: U64 :: info.Contains(k) <==> 40 * (n / 40) <= k < 40 * (n / 40) + 40
  {
    RegularEpoch(n, n);
  }

  /** Such epochs make a schedule, so the hypotheses below can be met. */
  lemma RegularEpochsPartition(staker: Felt, operational: Felt, stake: U128) returns (s: Schedule)
    ensures Partitions(s) && s.horizon == 0x1_0000_0000_0000
  {
    s := Schedule((n: U64) => RegularInfo(staker, operational, stake, n), 0x1_0000_0000_0000);
    forall n: U64 | n < s.horizon ensures s.entry(n).Contains(n) && s.entry(n).Assignable() {
      RegularInfoCovers(staker, operational, stake, n);
      RegularEpoch(n, n);
    }
    forall m: U64, n: U64 | m < s.horizon && n < s.horizon && s.entry(m).Contains(n) ensures s.entry(n) == s.entry(m) {
      RegularInfoCovers(staker, operational, stake, m);
      RegularEpoch(m, n);
    }
  }

  lemma CacheStep(env: Env, s: Schedule, w: World, input: Input)
    requires Scheduled(s, w.state.info) && AnswersSchedule(s, input, EffectOf(env, w, input))
    ensures Scheduled(s, Next(env, w, input).state.info)
  {
    if Adoption(EffectOf(env, w, input)) {
      AdoptionStep(env, w, input);
    } else {
      SessionStep(env, w, input);
    }
  }

  /** Every cached info is an epoch of the schedule. */
  lemma {:induction false} CacheIsScheduled(r: Run, s: Schedule, i: nat)
    requires r.Valid() && i <= |r.inputs| && Scheduled(s, r.first)
    requires forall k: nat :: k < i ==> AnswersScheduleAt(r, s, k)
    ensures Scheduled(s, r.State(i).info)
  {
    if i > 0 {
      var k := i - 1;
      CacheIsScheduled(r, s, k);
      assert r.Linked(k) && AnswersScheduleAt(r, s, k);
      CacheStep(r.env, s, r.worlds[k], r.inputs[k]);
    }
  }

  lemma CoherentHeader(env: Env, s: Schedule, w: World, input: Input)
    requires Partitions(s) && Scheduled(s, w.state.info) && AnswersSchedule(s, input, EffectOf(env, w, input))
    requires input.Header? && input.number < s.horizon && EffectOf(env, w, input).outcome.Done?
    ensures Next(env, w, input).state.info == s.entry(input.number)
  {
    if Adoption(EffectOf(env, w, input)) {
      AdoptionStep(env, w, input);
    } else {
      SessionStep(env, w, input);
      if !w.state.info.Contains(input.number) {
        OutsideStep(env, w, input);
      }
      var m: U64 :| m < s.horizon && s.entry(m) == w.state.info;
      assert s.entry(m).Contains(input.number);
    }
  }

  /** Epoch cache coherence. After every header of the chain handled without error the cached info is the
      schedule's entry for that header's block, even when headers skip whole epochs, go back, or a reorg installed
      another epoch. */
  lemma EpochCacheCoherent(r: Run, s: Schedule, i: nat)
    requires r.Valid() && i < |r.inputs| && Partitions(s) && Scheduled(s, r.first)
    requires forall k: nat :: k <= i ==> AnswersScheduleAt(r, s, k)
    requires r.inputs[i].Header? && r.inputs[i].number < s.horizon && r.effects[i].outcome.Done?
    ensures r.State(i + 1).info == s.entry(r.inputs[i].number)
  {
    CacheIsScheduled(r, s, i);
    assert r.Linked(i) && AnswersScheduleAt(r, s, i);
    CoherentHeader(r.env, s, r.worlds[i], r.inputs[i]);
  }
}
