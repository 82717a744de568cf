/**
  Identity derivation: a pool is named by the hash of its sorted token pair and
  fee, a position by the hash of its pool id and owner. The hash (keccak-256) is
  a parameter of type `Hasher` that the model knows nothing about.
 */
module Identity {
  import opened Primitives
  import opened Abi

  type Hasher = Bytes -> Bytes32

  /** `get_pool_id`: sorts the tokens ascending, then hashes (token0, token1, fee).
      Returns (pool_id, token0, token1). */
  function GetPoolId(keccak: Hasher, tokenA: Address, tokenB: Address, fee: U24): (r: (Bytes32, Address, Address))
    ensures r.1 <= r.2
    ensures (r.1, r.2) == (tokenA, tokenB) || (r.1, r.2) == (tokenB, tokenA)
  {
    var (token0, token1) := if tokenA <= tokenB then (tokenA, tokenB) else (tokenB, tokenA);
    (keccak(PoolKeyEncoding(token0, token1, fee)), token0, token1)
  }

  /** `get_position_id`: hashes (pool_id, owner). */
  function GetPositionId(keccak: Hasher, poolId: Bytes32, owner: Address): Bytes32
  {
    keccak(PositionKeyEncoding(poolId, owner))
  }

  /** The hash does not map the two byte strings `x` and `y` to the same value
      unless they are equal. */
  ghost predicate NoCollision(keccak: Hasher, x: Bytes, y: Bytes)
  {
    keccak(x) == keccak(y) ==> x == y
  }

  /** Two calls name the same pool exactly when they name the same unordered
      token pair and the same fee, as long as the hash does not collide on
      their two encodings. */
  lemma PoolIdsDistinct(keccak: Hasher, a: Address, b: Address, f: U24, c: Address, d: Address, g: U24)
    requires NoCollision(keccak, PoolKeyEncoding(GetPoolId(keccak, a, b, f).1, GetPoolId(keccak, a, b, f).2, f),
                         PoolKeyEncoding(GetPoolId(keccak, c, d, g).1, GetPoolId(keccak, c, d, g).2, g))
    ensures GetPoolId(keccak, a, b, f).0 == GetPoolId(keccak, c, d, g).0 <==> multiset{a, b} == multiset{c, d} && f == g
  {
    var (_, a0, a1) := GetPoolId(keccak, a, b, f);
    var (_, c0, c1) := GetPoolId(keccak, c, d, g);
    if GetPoolId(keccak, a, b, f).0 == GetPoolId(keccak, c, d, g).0 {
      PoolKeyEncodingInjective(a0, a1, f, c0, c1, g);
      assert multiset{a, b} == multiset{a0, a1};
      assert multiset{c, d} == multiset{c0, c1};
    }
    if multiset{a, b} == multiset{c, d} && f == g {
      GetPoolIdOrderIndependent(keccak, a, b, c, d, f);
    }
  }

  /** Two positions share an id exactly when they have the same pool and the
      same owner, as long as the hash does not collide on their two
      encodings. */
  lemma PositionIdsDistinct(keccak: Hasher, p: Bytes32, a: Address, q: Bytes32, b: Address)
    requires NoCollision(keccak, PositionKeyEncoding(p, a), PositionKeyEncoding(q, b))
    ensures GetPositionId(keccak, p, a) == GetPositionId(keccak, q, b) <==> p == q && a == b
  {
    if GetPositionId(keccak, p, a) == GetPositionId(keccak, q, b) {
      PositionKeyEncodingInjective(p, a, q, b);
    }
  }

  /** The same unordered pair and fee always give the same pool id and the same
      sorted tokens, whatever order the caller names the tokens in. */
  lemma GetPoolIdOrderIndependent(keccak: Hasher, a: Address, b: Address, c: Address, d: Address, fee: U24)
    requires multiset{a, b} == multiset{c, d}
    ensures GetPoolId(keccak, a, b, fee) == GetPoolId(keccak, c, d, fee)
  {
    assert a in multiset{c, d};
    if a == c {
      assert multiset{a, b} - multiset{a} == multiset{c, d} - multiset{c};
      assert b == d;
    } else {
      assert a == d;
      assert multiset{a, b} - multiset{a} == multiset{c, d} - multiset{d};
      assert b == c;
    }
  }
}
