/**
  The stored Pool record, its per-owner positions, and the accounting invariant
  that ties a pool's total liquidity to the liquidity of its positions.
 */
module PoolRecords {
  import opened Primitives
  import opened LiquidityMath

  /** The storage record of one pool. `positions` maps a position id to that
      position's liquidity; an id with no entry reads as zero, as storage does. */
  datatype Pool = Pool(
    token0: Address,
    token1: Address,
    fee: U24,
    liquidity: U256,
    balance0: U256,
    balance1: U256,
    positions: map<Bytes32, U256>)

  /** What storage returns for a pool id that was never written. */
  const EMPTY_POOL: Pool := Pool(ZERO_ADDRESS, ZERO_ADDRESS, 0, 0, 0, 0, map[])

  /** A pool exists when either token is non-zero; the all-zero record is the
      sentinel for "no pool". */
  predicate Exists(p: Pool)
  {
    p.token0 != ZERO_ADDRESS || p.token1 != ZERO_ADDRESS
  }

  /** The liquidity of a position in `p`, zero if none is stored. */
  function PositionOf(p: Pool, positionId: Bytes32): U256
  {
    if positionId in p.positions then p.positions[positionId] else 0
  }

  // ---------------------------------------------------------------------------
  // Sum of the positions of a pool

  ghost function Sum(m: map<Bytes32, U256>): nat
    decreases |m|
  {
    if m == map[] then 0
    else
      var k :| k in m;
      assert |m - {k}| < |m| by {
        assert m.Keys == (m - {k}).Keys + {k};
      }
      m[k] + Sum(m - {k})
  }

  lemma {:induction false} SumRemove(m: map<Bytes32, U256>, k: Bytes32)
    requires k in m
    ensures Sum(m) == m[k] + Sum(m - {k})
    decreases |m|
  {
    var j :| j in m && Sum(m) == m[j] + Sum(m - {j});
    if j != k {
      assert m.Keys == (m - {j}).Keys + {j};
      assert m.Keys == (m - {k}).Keys + {k};
      SumRemove(m - {j}, k);
      SumRemove(m - {k}, j);
      assert m - {j} - {k} == m - {k} - {j};
    }
  }

  /** Writing one position changes the sum by exactly the change of that position. */
  lemma SumUpdate(m: map<Bytes32, U256>, k: Bytes32, v: U256)
    ensures Sum(m[k := v]) + (if k in m then m[k] else 0) == Sum(m) + v
  {
    var m' := m[k := v];
    SumRemove(m', k);
    if k in m {
      SumRemove(m, k);
      assert m' - {k} == m - {k};
    } else {
      assert m' - {k} == m;
    }
  }

  lemma PositionWithinSum(m: map<Bytes32, U256>, k: Bytes32)
    requires k in m
    ensures m[k] <= Sum(m)
  {
    SumRemove(m, k);
  }

  // ---------------------------------------------------------------------------
  // The accounting invariant

  /** Before its first deposit a pool has no liquidity and no credited positions;
      afterwards its total liquidity is the sum of its positions plus the 1000
      units locked by the first deposit. */
  ghost predicate Accounted(p: Pool)
  {
    || (p.liquidity == 0 && Sum(p.positions) == 0)
    || p.liquidity == Sum(p.positions) + MINIMUM_LIQUIDITY
  }

  /** No position holds more than the pool's liquidity minus the locked amount. */
  lemma PositionWithinPool(p: Pool, positionId: Bytes32)
    ensures Accounted(p) ==>
      PositionOf(p, positionId) == 0 || PositionOf(p, positionId) + MINIMUM_LIQUIDITY <= p.liquidity
  {
    if positionId in p.positions {
      PositionWithinSum(p.positions, positionId);
    }
  }

  // ---------------------------------------------------------------------------
  // The record changes made by add_liquidity, remove_liquidity and swap

  /** `q` is `p` after a deposit of (amount0, amount1) minting `m`, credited to
      `positionId`; nothing else differs. */
  ghost predicate Deposited(p: Pool, q: Pool, positionId: Bytes32, amount0: U256, amount1: U256, m: Mint)
  {
    && q == p.(liquidity := q.liquidity, balance0 := q.balance0, balance1 := q.balance1,
               positions := p.positions[positionId := PositionOf(q, positionId)])
    && q.liquidity == p.liquidity + m.pool
    && q.balance0 == p.balance0 + amount0
    && q.balance1 == p.balance1 + amount1
    && PositionOf(q, positionId) == PositionOf(p, positionId) + m.user
  }

  /** `q` is `p` after `positionId` burns `removed` liquidity for (amount0, amount1). */
  ghost predicate Withdrawn(p: Pool, q: Pool, positionId: Bytes32, removed: U256, amount0: U256, amount1: U256)
  {
    && q == p.(liquidity := q.liquidity, balance0 := q.balance0, balance1 := q.balance1,
               positions := p.positions[positionId := PositionOf(q, positionId)])
    && q.liquidity == p.liquidity - removed
    && q.balance0 == p.balance0 - amount0
    && q.balance1 == p.balance1 - amount1
    && PositionOf(q, positionId) == PositionOf(p, positionId) - removed
  }

  /** `q` is `p` after a swap that took `input` into one reserve and paid
      `output` out of the other; only the two balances differ. */
  ghost predicate Swapped(p: Pool, q: Pool, zeroForOne: bool, input: U256, output: U256)
  {
    && q == p.(balance0 := q.balance0, balance1 := q.balance1)
    && (zeroForOne ==> q.balance0 == p.balance0 + input && q.balance1 == p.balance1 - output)
    && (!zeroForOne ==> q.balance1 == p.balance1 + input && q.balance0 == p.balance0 - output)
  }

  /** A deposit keeps the accounting: on the first deposit the pool gains the
      depositor's credit plus the locked 1000, later it gains exactly the credit. */
  lemma DepositKeepsAccounting(p: Pool, q: Pool, positionId: Bytes32, amount0: U256, amount1: U256, m: Mint)
    requires Accounted(p)
    requires Deposited(p, q, positionId, amount0, amount1, m)
    requires p.liquidity == 0 ==> m.pool == m.user + MINIMUM_LIQUIDITY
    requires p.liquidity > 0 ==> m.pool == m.user
    ensures Accounted(q)
    ensures q.liquidity == Sum(q.positions) + MINIMUM_LIQUIDITY
  {
    SumUpdate(p.positions, positionId, PositionOf(q, positionId));
  }

  /** A withdrawal of at most the owned liquidity keeps the accounting, and a
      pool that has had a deposit keeps at least the locked 1000 units. */
  lemma WithdrawKeepsAccounting(p: Pool, q: Pool, positionId: Bytes32, removed: U256, amount0: U256, amount1: U256)
    requires Accounted(p)
    requires removed <= PositionOf(p, positionId)
    requires Withdrawn(p, q, positionId, removed, amount0, amount1)
    ensures Accounted(q)
    ensures p.liquidity > 0 ==> q.liquidity >= MINIMUM_LIQUIDITY
  {
    PositionWithinPool(p, positionId);
    SumUpdate(p.positions, positionId, PositionOf(q, positionId));
  }
}
