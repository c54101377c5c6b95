/** The version 3 invoke transaction hash: how it is computed, and what it commits to. */
module TransactionHashes {
  import opened Primitives
  import opened Bytes

  datatype ResourceBounds = ResourceBounds(maxAmount: U64, maxPricePerUnit: U128)

  datatype DataAvailabilityMode = L1 | L2

  /** The broadcast form of an invoke transaction. */
  datatype InvokeTransaction = InvokeTransaction(
    senderAddress: Felt,
    calldata: seq<Felt>,
    signature: seq<Felt>,
    nonce: Felt,
    l1Gas: ResourceBounds,
    l1DataGas: ResourceBounds,
    l2Gas: ResourceBounds,
    tip: U64,
    paymasterData: seq<Felt>,
    accountDeploymentData: seq<Felt>,
    nonceMode: DataAvailabilityMode,
    feeMode: DataAvailabilityMode,
    isQuery: bool)

  /** What the hasher absorbs and produces: field elements, and Poseidon hashes as free terms. */
  datatype Term = Elem(value: Felt) | Poseidon(absorbed: seq<Term>)

  /** "invoke" as a Cairo short string. */
  const PREFIX_INVOKE: Felt := 0x696e766f6b65
  const VERSION_THREE: Felt := 3
  /** 2^128 + 3. */
  const QUERY_VERSION_THREE: Felt := 0x1_0000_0000_0000_0000_0000_0000_0000_0003

  datatype Resource = L1Gas | L2Gas | L1DataGas

  /** The first eight bytes of a resource's buffer: two zeroes and "L1_GAS" or "L2_GAS", or one and "L1_DATA". */
  function NameBytes(resource: Resource): (bytes: seq<Byte>)
    ensures |bytes| == 8
  {
    match resource
    case L1Gas => [0, 0, 0x4c, 0x31, 0x5f, 0x47, 0x41, 0x53]
    case L2Gas => [0, 0, 0x4c, 0x32, 0x5f, 0x47, 0x41, 0x53]
    case L1DataGas => [0, 0x4c, 0x31, 0x5f, 0x44, 0x41, 0x54, 0x41]
  }

  /** The resource's name as a number. */
  function NameNumber(resource: Resource): nat {
    match resource
    case L1Gas => 0x4c315f474153
    case L2Gas => 0x4c325f474153
    case L1DataGas => 0x4c315f44415441
  }

  /** The packed bounds of a resource: name * 2^192 + amount * 2^128 + price. */
  function Packed(resource: Resource, bounds: ResourceBounds): nat {
    NameNumber(resource) * (U64_LIMIT * U128_LIMIT) + bounds.maxAmount * U128_LIMIT + bounds.maxPricePerUnit
  }

  /** Packed bounds stay below 2^248, and so are field elements. */
  lemma PackedFits(resource: Resource, bounds: ResourceBounds)
    ensures Packed(resource, bounds) < 0x100_0000_0000_0000_0000_0000_0000_0000_0000_0000_0000_0000_0000_0000_0000_0000
    ensures Packed(resource, bounds) < STARK_PRIME
  {
    assert NameNumber(resource) < 0x100_0000_0000_0000;
  }

  /** Packing loses nothing: amount and price are recoverable, and the three resources never collide. */
  lemma PackedInjective(resource1: Resource, bounds1: ResourceBounds, resource2: Resource, bounds2: ResourceBounds)
    requires Packed(resource1, bounds1) == Packed(resource2, bounds2)
    ensures resource1 == resource2 && bounds1 == bounds2
  {
    var low1 := bounds1.maxAmount * U128_LIMIT + bounds1.maxPricePerUnit;
    var low2 := bounds2.maxAmount * U128_LIMIT + bounds2.maxPricePerUnit;
    assert low1 < U64_LIMIT * U128_LIMIT && low2 < U64_LIMIT * U128_LIMIT;
    assert NameNumber(resource1) == NameNumber(resource2);
    assert bounds1.maxAmount == bounds2.maxAmount;
  }

  lemma NameBytesDenote(resource: Resource)
    ensures FromBigEndian(NameBytes(resource)) == NameNumber(resource)
  {
    var b := NameBytes(resource);
    assert b[..7][..6] == b[..6] && b[..6][..5] == b[..5] && b[..5][..4] == b[..4];
    assert b[..4][..3] == b[..3] && b[..3][..2] == b[..2] && b[..2][..1] == b[..1] && b[..1][..0] == [];
    assert FromBigEndian(b[..2]) == 256 * FromBigEndian(b[..1]) + b[1];
    assert FromBigEndian(b[..4]) == 256 * FromBigEndian(b[..3]) + b[3];
    assert FromBigEndian(b[..6]) == 256 * FromBigEndian(b[..5]) + b[5];
  }

  /** The field element that 32 big-endian bytes denote. */
  function FeltFromBytes(bytes: seq<Byte>): Felt {
    FromBigEndian(bytes) % STARK_PRIME
  }

  /** The buffer's bytes denote the packed bounds, without reduction by the prime. */
  lemma BufferDenotes(resource: Resource, bounds: ResourceBounds)
    ensures FeltFromBytes(NameBytes(resource) + ToBigEndian(bounds.maxAmount, 8)
                          + ToBigEndian(bounds.maxPricePerUnit, 16)) == Packed(resource, bounds)
  {
    PowersOf256();
    var name := NameBytes(resource);
    var amount, price := ToBigEndian(bounds.maxAmount, 8), ToBigEndian(bounds.maxPricePerUnit, 16);
    NameBytesDenote(resource);
    BigEndianRoundTrip(bounds.maxAmount, 8);
    BigEndianRoundTrip(bounds.maxPricePerUnit, 16);
    BigEndianConcat(name, amount);
    BigEndianConcat(name + amount, price);
    PackedFits(resource, bounds);
    assert FromBigEndian(name + amount + price) ==
           (NameNumber(resource) * U64_LIMIT + bounds.maxAmount) * U128_LIMIT + bounds.maxPricePerUnit;
  }

  // ---------- The specification of the hash ----------

  function Elems(felts: seq<Felt>): seq<Term> {
    seq(|felts|, i requires 0 <= i < |felts| => Elem(felts[i]))
  }

  function PackedElem(resource: Resource, bounds: ResourceBounds): Term {
    PackedFits(resource, bounds);
    Elem(Packed(resource, bounds))
  }

  function FeeTerm(tx: InvokeTransaction): Term {
    Poseidon([Elem(tx.tip),
              PackedElem(L1Gas, tx.l1Gas), PackedElem(L2Gas, tx.l2Gas), PackedElem(L1DataGas, tx.l1DataGas)])
  }

  function TransactionHash(tx: InvokeTransaction, chainId: Felt): Term {
    Poseidon([
      Elem(PREFIX_INVOKE),
      Elem(if tx.isQuery then QUERY_VERSION_THREE else VERSION_THREE),
      Elem(tx.senderAddress),
      FeeTerm(tx),
      Poseidon(Elems(tx.paymasterData)),
      Elem(chainId),
      Elem(tx.nonce),
      Elem(0),
      Poseidon(Elems(tx.accountDeploymentData)),
      Poseidon(Elems(tx.calldata))])
  }

  // ---------- The layout ----------

  function Ascii(text: string): seq<Byte>
    requires forall i :: 0 <= i < |text| ==> text[i] < 256 as char
  {
    seq(|text|, i requires 0 <= i < |text| => text[i] as int)
  }

  /** The number that the characters of a short text denote, the first the most significant. */
  function ShortString(text: string): nat
    requires forall i :: 0 <= i < |text| ==> text[i] < 256 as char
  {
    FromBigEndian(Ascii(text))
  }

  predicate IsNumber(term: Term, number: nat) {
    term.Elem? && term.value == number
  }

  /** The term is the hash of these numbers, in this order. */
  predicate IsHashOf(term: Term, numbers: seq<nat>) {
    && term.Poseidon? && |term.absorbed| == |numbers|
    && forall i :: 0 <= i < |numbers| ==> IsNumber(term.absorbed[i], numbers[i])
  }

  /** A resource as it enters the fee hash: 64 bits of name, 64 bits of amount, 128 bits of price. */
  function PackedAs(name: string, bounds: ResourceBounds): nat
    requires forall i :: 0 <= i < |name| ==> name[i] < 256 as char
  {
    ShortString(name) * 0x1_0000_0000_0000_0000_0000_0000_0000_0000_0000_0000_0000_0000
    + bounds.maxAmount * 0x1_0000_0000_0000_0000_0000_0000_0000_0000 + bounds.maxPricePerUnit
  }

  lemma {:induction false} FirstByteLeads(first: Byte, rest: seq<Byte>)
    ensures FromBigEndian([first] + rest) == first * Pow256(|rest|) + FromBigEndian(rest)
  {
    BigEndianConcat([first], rest);
    assert [first][..0] == [];
  }

  lemma {:induction false} LeadingZeroes(rest: seq<Byte>)
    ensures FromBigEndian([0] + rest) == FromBigEndian(rest)
  {
    FirstByteLeads(0, rest);
  }

  /** The names used in the hash are those of the protocol. */
  lemma Names()
    ensures PREFIX_INVOKE == ShortString("invoke")
    ensures NameNumber(L1Gas) == ShortString("L1_GAS")
    ensures NameNumber(L2Gas) == ShortString("L2_GAS")
    ensures NameNumber(L1DataGas) == ShortString("L1_DATA")
  {
    NamesOfGas();
    var b := Ascii("invoke");
    assert b == [0x69, 0x6e, 0x76, 0x6f, 0x6b, 0x65];
    SixBytes(b);
  }

  lemma NamesOfGas()
    ensures NameNumber(L1Gas) == ShortString("L1_GAS")
    ensures NameNumber(L2Gas) == ShortString("L2_GAS")
    ensures NameNumber(L1DataGas) == ShortString("L1_DATA")
  {
    NameBytesDenote(L1Gas);
    assert NameBytes(L1Gas) == [0] + ([0] + Ascii("L1_GAS"));
    LeadingZeroes([0] + Ascii("L1_GAS"));
    LeadingZeroes(Ascii("L1_GAS"));
    NameBytesDenote(L2Gas);
    assert NameBytes(L2Gas) == [0] + ([0] + Ascii("L2_GAS"));
    LeadingZeroes([0] + Ascii("L2_GAS"));
    LeadingZeroes(Ascii("L2_GAS"));
    NameBytesDenote(L1DataGas);
    assert NameBytes(L1DataGas) == [0] + Ascii("L1_DATA");
    LeadingZeroes(Ascii("L1_DATA"));
  }

  lemma SixBytes(b: seq<Byte>)
    requires |b| == 6
    ensures FromBigEndian(b) == ((((b[0] as nat * 256 + b[1]) * 256 + b[2]) * 256 + b[3]) * 256 + b[4]) * 256 + b[5]
  {
    assert b[..5][..4] == b[..4] && b[..4][..3] == b[..3] && b[..3][..2] == b[..2] && b[..2][..1] == b[..1];
    assert b[..1][..0] == [];
    assert FromBigEndian(b[..1]) == b[0];
    assert FromBigEndian(b[..2]) == 256 * FromBigEndian(b[..1]) + b[1];
    assert FromBigEndian(b[..4]) == 256 * FromBigEndian(b[..3]) + b[3];
  }

  /** The layout of the fee hash: tip, L1 gas, L2 gas, L1 data gas. */
  lemma FeeLayout(tx: InvokeTransaction)
    ensures IsHashOf(FeeTerm(tx),
                     [tx.tip, PackedAs("L1_GAS", tx.l1Gas), PackedAs("L2_GAS", tx.l2Gas),
                      PackedAs("L1_DATA", tx.l1DataGas)])
  {
    NamesOfGas();
  }

  /** The layout of the hash, position by position. */
  lemma HashLayout(tx: InvokeTransaction, chainId: Felt)
    ensures var hash := TransactionHash(tx, chainId);
            && hash.Poseidon? && |hash.absorbed| == 10
            && IsNumber(hash.absorbed[0], ShortString("invoke"))
            && IsNumber(hash.absorbed[1], if tx.isQuery then 0x1_0000_0000_0000_0000_0000_0000_0000_0003 else 3)
            && IsNumber(hash.absorbed[2], tx.senderAddress)
            && IsHashOf(hash.absorbed[3],
                        [tx.tip, PackedAs("L1_GAS", tx.l1Gas), PackedAs("L2_GAS", tx.l2Gas),
                         PackedAs("L1_DATA", tx.l1DataGas)])
            && IsHashOf(hash.absorbed[4], tx.paymasterData)
            && IsNumber(hash.absorbed[5], chainId)
            && IsNumber(hash.absorbed[6], tx.nonce)
            && IsNumber(hash.absorbed[7], 0)
            && IsHashOf(hash.absorbed[8], tx.accountDeploymentData)
            && IsHashOf(hash.absorbed[9], tx.calldata)
  {
    Names();
    FeeLayout(tx);
    ElemsAreHashed(tx.paymasterData);
    ElemsAreHashed(tx.accountDeploymentData);
    ElemsAreHashed(tx.calldata);
  }

  lemma ElemsAreHashed(felts: seq<Felt>)
    ensures IsHashOf(Poseidon(Elems(felts)), felts)
  {
  }

  /** The signer writes two constants in Montgomery form, that is, multiplied by 2^256 and reduced by the prime. They
      are the prefix and the query version. */
  lemma SignerConstants()
    ensures Limbs(513398556346534256, 18446744073709551615, 18446744073709551615, 18443034532770911073)
            == PREFIX_INVOKE * Pow256(32) % STARK_PRIME
    ensures Limbs(576460752142432688, 18446744073709551584, 17407, 18446744073700081569)
            == QUERY_VERSION_THREE * Pow256(32) % STARK_PRIME
  {
    PowersOf256();
    PowAdds(16, 16);
    Reduces(PREFIX_INVOKE * Pow256(32), 3709540938640543,
            Limbs(513398556346534256, 18446744073709551615, 18446744073709551615, 18443034532770911073));
    Reduces(QUERY_VERSION_THREE * Pow256(32), 10889035741470030509707066602680717705311,
            Limbs(576460752142432688, 18446744073709551584, 17407, 18446744073700081569));
  }

  /** Four 64-bit limbs, the first the most significant. */
  function Limbs(a: U64, b: U64, c: U64, d: U64): nat {
    ((a * U64_LIMIT + b) * U64_LIMIT + c) * U64_LIMIT + d
  }

  lemma Reduces(number: nat, quotient: nat, remainder: nat)
    requires number == quotient * STARK_PRIME + remainder && remainder < STARK_PRIME
    ensures number % STARK_PRIME == remainder
  {
  }

  // ---------- The computation ----------

  class PoseidonHasher {
    var absorbed: seq<Term>

    constructor ()
      ensures absorbed == []
    {
      absorbed := [];
    }

    method Update(value: Term)
      modifies this
      ensures absorbed == old(absorbed) + [value]
    {
      absorbed := absorbed + [value];
    }

    method Finalize() returns (hash: Term)
      ensures hash == Poseidon(absorbed)
    {
      hash := Poseidon(absorbed);
    }
  }

  /** `copy_from_slice` into the bytes of `buffer` from `start` on. */
  method CopyFromSlice(buffer: array<Byte>, start: nat, bytes: seq<Byte>)
    requires start + |bytes| <= buffer.Length
    modifies buffer
    ensures buffer[..] == old(buffer[..start]) + bytes + old(buffer[start + |bytes|..])
  {
    ghost var was := buffer[..];
    for i := 0 to |bytes|
      invariant buffer[..start] == was[..start]
      invariant buffer[start..start + i] == bytes[..i]
      invariant buffer[start + i..] == was[start + i..]
    {
      buffer[start + i] := bytes[i];
      assert buffer[start..start + i + 1] == buffer[start..start + i] + [bytes[i]];
      assert bytes[..i + 1] == bytes[..i] + [bytes[i]];
    }
    assert buffer[..] == buffer[..start] + buffer[start..start + |bytes|] + buffer[start + |bytes|..];
    assert bytes[..|bytes|] == bytes;
  }

  /** Fills a resource's 32-byte buffer: name, amount, price. */
  method PackBounds(resource: Resource, bounds: ResourceBounds) returns (value: Term)
    ensures value == PackedElem(resource, bounds)
  {
    var name := NameBytes(resource);
    var buffer := new Byte[32](i requires 0 <= i < 32 => if i < 8 then name[i] else 0);
    assert buffer[..8] == name;
    var amount, price := ToBigEndian(bounds.maxAmount, 8), ToBigEndian(bounds.maxPricePerUnit, 16);
    CopyFromSlice(buffer, 8, amount);
    assert buffer[..16] == name + amount;
    CopyFromSlice(buffer, 16, price);
    assert buffer[..] == name + amount + price;
    BufferDenotes(resource, bounds);
    value := Elem(FeltFromBytes(buffer[..]));
  }

  method ComputeFeeHash(tx: InvokeTransaction) returns (hash: Term)
    ensures hash == FeeTerm(tx)
  {
    var feeHasher := new PoseidonHasher();
    feeHasher.Update(Elem(tx.tip));
    var l1 := PackBounds(L1Gas, tx.l1Gas);
    feeHasher.Update(l1);
    var l2 := PackBounds(L2Gas, tx.l2Gas);
    feeHasher.Update(l2);
    var data := PackBounds(L1DataGas, tx.l1DataGas);
    feeHasher.Update(data);
    hash := feeHasher.Finalize();
  }

  /** `transaction_hash` of the example signer. */
  method ComputeTransactionHash(tx: InvokeTransaction, chainId: Felt) returns (hash: Term)
    ensures hash == TransactionHash(tx, chainId)
  {
    var hasher := new PoseidonHasher();
    hasher.Update(Elem(PREFIX_INVOKE));
    hasher.Update(Elem(if tx.isQuery then QUERY_VERSION_THREE else VERSION_THREE));
    hasher.Update(Elem(tx.senderAddress));
    var fee := ComputeFeeHash(tx);
    hasher.Update(fee);
    hasher.Update(Poseidon(Elems(tx.paymasterData)));
    hasher.Update(Elem(chainId));
    hasher.Update(Elem(tx.nonce));
    hasher.Update(Elem(0));
    hasher.Update(Poseidon(Elems(tx.accountDeploymentData)));
    hasher.Update(Poseidon(Elems(tx.calldata)));
    hash := hasher.Finalize();
  }
}
