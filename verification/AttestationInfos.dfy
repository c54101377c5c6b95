/** What the staking contract tells a validator about its epoch, and the block it is assigned. */
module AttestationInfos {
  import opened Primitives

  /** Blocks between the assigned block and the first block whose state can refer to its hash. */
  const MIN_ATTESTATION_WINDOW: U64 := 11

  datatype AttestationInfo = AttestationInfo(
    staker: Felt,
    operational: Felt,
    stake: U128,
    epochLen: U64,
    epochId: U64,
    start: U64,
    window: U16)
  {
    /** The range the block offset is reduced to. Zero makes the program panic. */
    function Modulus(): U64 {
      WrappingSub(epochLen, window)
    }

    predicate Assignable() {
      Modulus() != 0
    }

    predicate Contains(n: U64) {
      start <= n < WrappingAdd(start, epochLen)
    }

    /** Epoch end as an unbounded number. */
    function End(): nat {
      start + epochLen
    }

    /** The window is shorter than the epoch and the block numbers the attestation needs fit in 64 bits:
        the epoch's end, and eleven blocks past the last block that can be assigned. */
    predicate Sane(): (sane: bool)
      ensures sane ==> Assignable()
    {
      && window < epochLen
      && End() < U64_LIMIT
      && End() - window - 1 + MIN_ATTESTATION_WINDOW < U64_LIMIT
    }
  }

  /** What is fixed for a whole run: the hash function and the configured operational address. */
  datatype Env = Env(poseidon: seq<Felt> -> Felt, operationalAddress: Felt)

  /** Remainder of a field element; it always fits 64 bits, so the program's conversion cannot fail. */
  function Remainder(hash: Felt, modulus: U64): (r: U64)
    requires modulus != 0
    ensures r < modulus
    ensures hash < modulus ==> r == hash
  {
    RemainderBounds(hash, modulus);
    hash % modulus
  }

  lemma RemainderBounds(dividend: nat, modulus: nat)
    requires modulus != 0
    ensures 0 <= dividend % modulus < modulus
    ensures dividend < modulus ==> dividend % modulus == dividend
  {
  }

  function AssignedBlock(env: Env, info: AttestationInfo): U64
    requires info.Assignable()
  {
    var hash := env.poseidon([info.stake, info.epochId, info.staker]);
    WrappingAdd(info.start, Remainder(hash, info.Modulus()))
  }

  /** Placement on sane infos: the block lies so early in the epoch that its whole window ends before
      the epoch does, and neither bound of the window wraps. */
  lemma AssignedBlockPlacement(env: Env, info: AttestationInfo)
    requires info.Sane()
    ensures info.Assignable()
    ensures var b := AssignedBlock(env, info);
            && info.start <= b < info.End() - info.window
            && WrappingAdd(b, info.window) == b + info.window <= info.End() - 1
            && WrappingAdd(b, MIN_ATTESTATION_WINDOW) == b + MIN_ATTESTATION_WINDOW
    ensures WrappingAdd(info.start, info.epochLen) == info.End()
  {
    ModulusOfSane(info);
    var offset := Remainder(env.poseidon([info.stake, info.epochId, info.staker]), info.Modulus());
    AddFits(info.start, offset);
    AddFits(info.start + offset, info.window);
    AddFits(info.start + offset, MIN_ATTESTATION_WINDOW);
    AddFits(info.start, info.epochLen);
  }

  lemma ModulusOfSane(info: AttestationInfo)
    requires info.window < info.epochLen
    ensures info.Modulus() == info.epochLen - info.window
  {
  }

  /** Which block is assigned: the hash of stake, epoch and staker, in this order, reduced by the number of blocks
      that leave room for the window, counted from the start of the epoch. */
  lemma AssignedBlockFormula(env: Env, info: AttestationInfo)
    requires info.Sane()
    ensures AssignedBlock(env, info) ==
            info.start + env.poseidon([info.stake, info.epochId, info.staker]) % (info.epochLen - info.window)
  {
    ModulusOfSane(info);
    var hash := env.poseidon([info.stake, info.epochId, info.staker]);
    RemainderBounds(hash, info.Modulus());
    AddFits(info.start, Remainder(hash, info.Modulus()));
  }

  /** With a window longer than the epoch the reduction is by the wrapped difference instead, and the sum may wrap. */
  lemma AssignedBlockWraps(env: Env, info: AttestationInfo)
    requires info.window > info.epochLen
    ensures info.Assignable()
    ensures AssignedBlock(env, info) ==
            (info.start + env.poseidon([info.stake, info.epochId, info.staker])
                          % (0x1_0000_0000_0000_0000 - (info.window - info.epochLen))) % 0x1_0000_0000_0000_0000
  {
    assert info.Modulus() == U64_LIMIT + info.epochLen - info.window;
  }

  /** With a window of at least eleven blocks, sanity needs nothing beyond the epoch end fitting in 64 bits. */
  lemma SaneForUsableWindows(info: AttestationInfo)
    requires MIN_ATTESTATION_WINDOW <= info.window < info.epochLen && info.End() < U64_LIMIT
    ensures info.Sane()
  {
  }

  /** Where in the epoch a given hash would put the block. */
  predicate PlacedInEpoch(info: AttestationInfo, hash: Felt)
    requires info.Assignable()
  {
    info.start <= WrappingAdd(info.start, Remainder(hash, info.Modulus())) < info.End() - info.window
  }

  /** The arithmetic places the block inside the epoch, early enough for its window, for every value of
      the hash exactly when the window is shorter than the epoch. */
  lemma PlacementNeedsShortWindow(info: AttestationInfo)
    requires info.End() < U64_LIMIT
    ensures info.window < info.epochLen <==>
            info.Assignable() && forall hash: Felt :: PlacedInEpoch(info, hash)
  {
    if info.window < info.epochLen {
      assert info.Modulus() == info.epochLen - info.window;
    } else if info.window > info.epochLen {
      assert info.Modulus() == U64_LIMIT + info.epochLen - info.window;
      assert !PlacedInEpoch(info, info.epochLen);
    }
  }
}
