/**
  The ABI encoding the contract hashes to derive ids (`abi_encode_sequence` of a
  tuple of static values): every value becomes one 32-byte big-endian word,
  left-padded with zero bytes, and the words are concatenated. A FixedBytes<32>
  is its own word.
 */
module Abi {
  import opened Primitives

  function Pow256(n: nat): (p: nat)
    ensures p > 0
  {
    if n == 0 then 1 else 256 * Pow256(n - 1)
  }

  lemma {:induction false} Pow256Add(a: nat, b: nat)
    ensures Pow256(a + b) == Pow256(a) * Pow256(b)
  {
    if a > 0 {
      Pow256Add(a - 1, b);
      assert Pow256(a + b) == 256 * Pow256(a - 1 + b);
      assert 256 * (Pow256(a - 1) * Pow256(b)) == (256 * Pow256(a - 1)) * Pow256(b);
    }
  }

  lemma Pow256Of32()
    ensures Pow256(32) == U256_LIMIT
  {
    assert Pow256(2) == 0x1_0000;
    Pow256Add(2, 2);
    assert Pow256(4) == 0x1_0000_0000;
    Pow256Add(4, 4);
    assert Pow256(8) == 0x1_0000_0000_0000_0000;
    Pow256Add(8, 8);
    assert Pow256(16) == 0x1_0000_0000_0000_0000_0000_0000_0000_0000;
    Pow256Add(16, 16);
  }

  /** `n` as `len` big-endian bytes. */
  function BigEndian(n: nat, len: nat): (s: Bytes)
    requires n < Pow256(len)
    ensures |s| == len
  {
    if len == 0 then [] else BigEndian(n / 256, len - 1) + [n % 256]
  }

  /** The number a big-endian byte string denotes. */
  function FromBigEndian(s: Bytes): nat
  {
    if s == [] then 0 else FromBigEndian(s[..|s| - 1]) * 256 + s[|s| - 1]
  }

  lemma {:induction false} BigEndianRoundTrip(n: nat, len: nat)
    requires n < Pow256(len)
    ensures FromBigEndian(BigEndian(n, len)) == n
  {
    if len > 0 {
      var s := BigEndian(n, len);
      assert s[..len - 1] == BigEndian(n / 256, len - 1);
      BigEndianRoundTrip(n / 256, len - 1);
    }
  }

  /** One ABI word holding an unsigned value (an address, a U24 or a U256). */
  function Word(n: nat): (w: Bytes32)
    requires n < U256_LIMIT
  {
    Pow256Of32();
    BigEndian(n, 32)
  }

  lemma WordRoundTrip(n: nat)
    requires n < U256_LIMIT
    ensures FromBigEndian(Word(n)) == n
  {
    Pow256Of32();
    BigEndianRoundTrip(n, 32);
  }

  /** The words of the tuple (token0, token1, fee) hashed into a pool id. */
  function PoolKeyEncoding(token0: Address, token1: Address, fee: U24): (e: Bytes)
  {
    Word(token0) + Word(token1) + Word(fee)
  }

  /** The words of the tuple (pool_id, owner) hashed into a position id. */
  function PositionKeyEncoding(poolId: Bytes32, owner: Address): (e: Bytes)
  {
    poolId + Word(owner)
  }

  /** Distinct sorted pool keys give distinct hash inputs: two pool ids can only
      coincide through a collision of the hash itself. */
  lemma PoolKeyEncodingInjective(a0: Address, a1: Address, af: U24, b0: Address, b1: Address, bf: U24)
    requires PoolKeyEncoding(a0, a1, af) == PoolKeyEncoding(b0, b1, bf)
    ensures a0 == b0 && a1 == b1 && af == bf
  {
    var e := PoolKeyEncoding(a0, a1, af);
    var e' := PoolKeyEncoding(b0, b1, bf);
    assert e[..32] == Word(a0) && e'[..32] == Word(b0);
    assert e[32..64] == Word(a1) && e'[32..64] == Word(b1);
    assert e[64..] == Word(af) && e'[64..] == Word(bf);
    WordRoundTrip(a0);
    WordRoundTrip(b0);
    WordRoundTrip(a1);
    WordRoundTrip(b1);
    WordRoundTrip(af);
    WordRoundTrip(bf);
  }

  /** Distinct (pool, owner) pairs give distinct hash inputs. */
  lemma PositionKeyEncodingInjective(p: Bytes32, a: Address, q: Bytes32, b: Address)
    requires PositionKeyEncoding(p, a) == PositionKeyEncoding(q, b)
    ensures p == q && a == b
  {
    var e := PositionKeyEncoding(p, a);
    var e' := PositionKeyEncoding(q, b);
    assert e[..32] == p && e'[..32] == q;
    assert e[32..] == Word(a) && e'[32..] == Word(b);
    WordRoundTrip(a);
    WordRoundTrip(b);
  }
}
