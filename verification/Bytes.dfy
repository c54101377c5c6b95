/** Big-endian bytes. */
module Bytes {
  import opened Primitives

  type Byte = x: nat | x < 256

  function Pow256(n: nat): (p: nat)
    ensures p > 0
  {
    if n == 0 then 1 else 256 * Pow256(n - 1)
  }

  /** The number that big-endian bytes denote. */
  function FromBigEndian(bytes: seq<Byte>): nat {
    if bytes == [] then 0 else 256 * FromBigEndian(bytes[..|bytes| - 1]) + bytes[|bytes| - 1]
  }

  /** The last `count` big-endian bytes of a number. */
  function ToBigEndian(value: nat, count: nat): (bytes: seq<Byte>)
    ensures |bytes| == count
  {
    if count == 0 then [] else ToBigEndian(value / 256, count - 1) + [value % 256]
  }

  /** A number that fits is denoted by its bytes. */
  lemma {:induction false} BigEndianRoundTrip(value: nat, count: nat)
    requires value < Pow256(count)
    ensures FromBigEndian(ToBigEndian(value, count)) == value
  {
    if count > 0 {
      BigEndianRoundTrip(value / 256, count - 1);
      assert ToBigEndian(value, count)[..count - 1] == ToBigEndian(value / 256, count - 1);
    }
  }

  lemma {:induction false} PowAdds(m: nat, n: nat)
    ensures Pow256(m + n) == Pow256(m) * Pow256(n)
  {
    if n > 0 {
      PowAdds(m, n - 1);
      var a, b := Pow256(m), Pow256(n - 1);
      assert 256 * (a * b) == a * (256 * b);
    }
  }

  /** Concatenation shifts the front part up. */
  lemma {:induction false} BigEndianConcat(front: seq<Byte>, back: seq<Byte>)
    ensures FromBigEndian(front + back) == FromBigEndian(front) * Pow256(|back|) + FromBigEndian(back)
  {
    if back == [] {
      assert front + back == front;
    } else {
      var init := back[..|back| - 1];
      assert (front + back)[..|front + back| - 1] == front + init;
      BigEndianConcat(front, init);
      ShiftByte(FromBigEndian(front), Pow256(|init|), FromBigEndian(init), back[|back| - 1]);
    }
  }

  lemma ShiftByte(high: nat, p: nat, low: nat, byte: nat)
    ensures 256 * (high * p + low) + byte == high * (256 * p) + (256 * low + byte)
  {
  }

  /** The prime is 2^251 + 17 * 2^192 + 1. */
  lemma PrimeInPowers()
    ensures STARK_PRIME == 8 * Pow256(31) + 17 * Pow256(24) + 1
  {
    PowersOf256();
    PowAdds(24, 7);
    assert Pow256(4) == 0x1_0000_0000;
    PowAdds(4, 3);
    assert Pow256(3) == 0x100_0000;
  }

  lemma PowersOf256()
    ensures Pow256(8) == U64_LIMIT
    ensures Pow256(16) == U128_LIMIT
    ensures Pow256(24) == U64_LIMIT * U128_LIMIT
  {
    assert Pow256(4) == 0x1_0000_0000;
    PowAdds(4, 4);
    PowAdds(8, 8);
    PowAdds(8, 16);
  }
}
