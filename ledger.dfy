/**
  The contract's state and its four state-changing entry points.

  `StylusSwap` holds the `pools` mapping. Each entry point either returns an
  error and leaves `pools` as it was (an `Err` reverts the call, including any
  writes made before a failed token transfer), or commits the new record of
  one pool. The caller (`msg_sender`), the contract's own address and the
  outcome of each token transfer are parameters.
 */
module Ledger {
  import opened Primitives
  import opened Abi
  import opened Identity
  import opened LiquidityMath
  import opened SwapMath
  import opened PoolRecords

  /** A request to move `amount` of `token` (the zero address: ether). */
  datatype Transfer = Transfer(token: Address, sender: Address, recipient: Address, amount: U256)

  /** Whether the token contract or the host carries out a transfer. */
  type Mover = Transfer -> bool

  /** `try_transfer_token`: only a transfer into or out of the contract is
      attempted; it succeeds exactly when the mover carries it out. */
  function TryTransfer(mover: Mover, contract: Address, t: Transfer): (r: Result<()>)
    ensures r.Ok? <==> (t.sender == contract || t.recipient == contract) && mover(t)
    ensures r.Err? ==> r.error == FailedOrInsufficientTokenTransfer(t.token, t.sender, t.recipient, t.amount)
  {
    if t.sender != contract && t.recipient != contract then
      Err(FailedOrInsufficientTokenTransfer(t.token, t.sender, t.recipient, t.amount))
    else if mover(t) then
      Ok(())
    else
      Err(FailedOrInsufficientTokenTransfer(t.token, t.sender, t.recipient, t.amount))
  }

  /** The two transfers that end every successful deposit, withdrawal and
      swap, in order; the first failure is the result. */
  function TransferPair(mover: Mover, contract: Address, first: Transfer, second: Transfer): (r: Result<()>)
    ensures r.Ok? <==> TryTransfer(mover, contract, first).Ok? && TryTransfer(mover, contract, second).Ok?
  {
    var _ :- TryTransfer(mover, contract, first);
    TryTransfer(mover, contract, second)
  }

  /** What every stored record satisfies: its id is the hash of its sorted
      tokens and fee, its liquidity is accounted for by its positions, and a
      record whose tokens are both zero (a pool "created" for the zero pair)
      holds nothing. */
  ghost predicate WellFormed(keccak: Hasher, poolId: Bytes32, p: Pool)
  {
    && p.token0 <= p.token1
    && poolId == keccak(PoolKeyEncoding(p.token0, p.token1, p.fee))
    && Accounted(p)
    && (!Exists(p) ==> p.liquidity == 0 && p.balance0 == 0 && p.balance1 == 0 && p.positions == map[])
  }

  class StylusSwap {
    /** keccak-256, as the host computes it. */
    const keccak: Hasher
    /** `mapping(bytes32 => Pool) pools`; an id with no entry reads as `EMPTY_POOL`. */
    var pools: map<Bytes32, Pool>

    ghost predicate Valid()
      reads this
    {
      forall poolId :: poolId in pools ==> WellFormed(keccak, poolId, pools[poolId])
    }

    constructor(keccak: Hasher)
      ensures Valid()
      ensures this.keccak == keccak && pools == map[]
    {
      this.keccak := keccak;
      pools := map[];
    }

    /** The stored record of `poolId`, the zero record if none was written. */
    function PoolAt(poolId: Bytes32): Pool
      reads this
    {
      if poolId in pools then pools[poolId] else EMPTY_POOL
    }

    lemma ValidPoolAt(poolId: Bytes32)
      requires Valid()
      ensures WellFormed(keccak, poolId, PoolAt(poolId)) || (poolId !in pools && PoolAt(poolId) == EMPTY_POOL)
      ensures Accounted(PoolAt(poolId))
      ensures !Exists(PoolAt(poolId)) ==> PoolAt(poolId).positions == map[] && PoolAt(poolId).liquidity == 0
    {
    }

    /** `get_position_liquidity`: the liquidity credited to `owner` in `poolId`,
        zero when none is stored. In a valid state it is zero or leaves at
        least the locked 1000 units of the pool's liquidity to others. */
    function GetPositionLiquidity(poolId: Bytes32, owner: Address): (l: U256)
      reads this
      ensures l == 0 || GetPositionId(keccak, poolId, owner) in PoolAt(poolId).positions
      ensures Valid() ==> l == 0 || l + MINIMUM_LIQUIDITY <= PoolAt(poolId).liquidity
    {
      var positionId := GetPositionId(keccak, poolId, owner);
      PositionWithinPool(PoolAt(poolId), positionId);
      PositionOf(PoolAt(poolId), positionId)
    }

    /** `create_pool`: fails with `PoolAlreadyExists` if the record at the pool
        id has a non-zero token; otherwise stores the sorted tokens and the fee
        with no liquidity and empty reserves, and touches no other pool. */
    method CreatePool(tokenA: Address, tokenB: Address, fee: U24) returns (r: Result<()>)
      requires Valid()
      modifies this
      ensures Valid()
      ensures var (poolId, token0, token1) := GetPoolId(keccak, tokenA, tokenB, fee);
              if Exists(old(PoolAt(poolId))) then
                r == Err(PoolAlreadyExists(poolId)) && pools == old(pools)
              else
                r == Ok(()) && pools == old(pools)[poolId := Pool(token0, token1, fee, 0, 0, 0, map[])]
      ensures r.Ok? && (tokenA != ZERO_ADDRESS || tokenB != ZERO_ADDRESS) ==>
                Exists(PoolAt(GetPoolId(keccak, tokenA, tokenB, fee).0))
    {
      var (poolId, token0, token1) := GetPoolId(keccak, tokenA, tokenB, fee);
      var existingPool := PoolAt(poolId);
      if Exists(existingPool) {
        return Err(PoolAlreadyExists(poolId));
      }
      ValidPoolAt(poolId);
      pools := pools[poolId := existingPool.(token0 := token0, token1 := token1, fee := fee,
                                             liquidity := 0, balance0 := 0, balance1 := 0)];
      return Ok(());
    }

    /** `add_liquidity`: the pool must exist; the amounts come from
        `GetLiquidityAmounts` and the credit from `MintOutcome`; the new totals
        must fit in a U256; then the caller pays both amounts in. On success
        the pool gains the amounts and the minted liquidity, the caller's
        position gains its credit, and nothing else changes. */
    method AddLiquidity(caller: Address, contract: Address, mover: Mover, poolId: Bytes32,
                        amount0Desired: U256, amount1Desired: U256, amount0Min: U256, amount1Min: U256)
      returns (r: Result<()>)
      requires Valid()
      modifies this
      ensures Valid()
      ensures r.Err? ==> pools == old(pools)
      ensures var p := old(PoolAt(poolId));
              var amounts := GetLiquidityAmounts(amount0Desired, amount1Desired, amount0Min, amount1Min,
                                                 p.balance0, p.balance1);
              if !Exists(p) then r == Err(PoolDoesNotExist(poolId))
              else if amounts.Err? then r == Err(amounts.error)
              else
                var (amount0, amount1) := amounts.value;
                var mint := MintOutcome(amount0, amount1, p.liquidity, p.balance0, p.balance1);
                if mint.Err? then r == Err(mint.error)
                else if p.liquidity + mint.value.pool >= U256_LIMIT || p.balance0 + amount0 >= U256_LIMIT
                        || p.balance1 + amount1 >= U256_LIMIT then
                  r == Err(ArithmeticPanic)
                else
                  && r == TransferPair(mover, contract, Transfer(p.token0, caller, contract, amount0),
                                       Transfer(p.token1, caller, contract, amount1))
                  && (r.Ok? ==>
                        && poolId in pools
                        && pools == old(pools)[poolId := pools[poolId]]
                        && Deposited(p, pools[poolId], GetPositionId(keccak, poolId, caller), amount0, amount1, mint.value))
    {
      var pool := PoolAt(poolId);
      if !Exists(pool) {
        return Err(PoolDoesNotExist(poolId));
      }
      ValidPoolAt(poolId);
      var positionId := GetPositionId(keccak, poolId, caller);
      var userLiquidity := PositionOf(pool, positionId);
      var amounts :- GetLiquidityAmounts(amount0Desired, amount1Desired, amount0Min, amount1Min,
                                         pool.balance0, pool.balance1);
      var (amount0, amount1) := amounts;
      var mint :- ComputeMint(amount0, amount1, pool.liquidity, pool.balance0, pool.balance1);
      var liquidity :- CheckedAdd(pool.liquidity, mint.pool);
      var balance0 :- CheckedAdd(pool.balance0, amount0);
      var balance1 :- CheckedAdd(pool.balance1, amount1);
      if pool.liquidity == 0 {
        FirstDepositOutcome(amount0, amount1, pool.balance0, pool.balance1);
      } else {
        LaterMintWithinBothRatios(amount0, amount1, pool.liquidity, pool.balance0, pool.balance1);
      }
      PositionWithinPool(pool, positionId);
      var updated := pool.(liquidity := liquidity, balance0 := balance0, balance1 := balance1,
                           positions := pool.positions[positionId := userLiquidity + mint.user]);
      DepositKeepsAccounting(pool, updated, positionId, amount0, amount1, mint);
      var saved := pools;
      pools := pools[poolId := updated];
      var paid0 := TryTransfer(mover, contract, Transfer(pool.token0, caller, contract, amount0));
      if paid0.Err? {
        pools := saved;
        return paid0;
      }
      var paid1 := TryTransfer(mover, contract, Transfer(pool.token1, caller, contract, amount1));
      if paid1.Err? {
        pools := saved;
        return paid1;
      }
      return Ok(());
    }

    /** `remove_liquidity`: the pool must exist and the caller must own at
        least `liquidityToRemove`; the amounts come from `WithdrawAmounts`;
        then the contract pays both amounts out. On success the pool loses the
        amounts and the liquidity, the caller's position loses the liquidity,
        and nothing else changes. */
    method RemoveLiquidity(caller: Address, contract: Address, mover: Mover, poolId: Bytes32,
                           liquidityToRemove: U256)
      returns (r: Result<()>)
      requires Valid()
      modifies this
      ensures Valid()
      ensures r.Err? ==> pools == old(pools)
      ensures var p := old(PoolAt(poolId));
              var positionId := GetPositionId(keccak, poolId, caller);
              var amounts := WithdrawAmounts(p.balance0, p.balance1, liquidityToRemove, p.liquidity);
              if !Exists(p) then r == Err(PoolDoesNotExist(poolId))
              else if liquidityToRemove > PositionOf(p, positionId) then r == Err(InsufficientLiquidityOwned)
              else if amounts.Err? then r == Err(amounts.error)
              else
                var (amount0, amount1) := amounts.value;
                && r == TransferPair(mover, contract, Transfer(p.token0, contract, caller, amount0),
                                     Transfer(p.token1, contract, caller, amount1))
                && (r.Ok? ==>
                      && poolId in pools
                      && pools == old(pools)[poolId := pools[poolId]]
                      && Withdrawn(p, pools[poolId], positionId, liquidityToRemove, amount0, amount1))
    {
      var pool := PoolAt(poolId);
      if !Exists(pool) {
        return Err(PoolDoesNotExist(poolId));
      }
      ValidPoolAt(poolId);
      var positionId := GetPositionId(keccak, poolId, caller);
      var userLiquidity := PositionOf(pool, positionId);
      if liquidityToRemove > userLiquidity {
        return Err(InsufficientLiquidityOwned);
      }
      var amounts :- WithdrawAmounts(pool.balance0, pool.balance1, liquidityToRemove, pool.liquidity);
      var (amount0, amount1) := amounts;
      PositionWithinPool(pool, positionId);
      WithdrawProportional(pool.balance0, pool.balance1, liquidityToRemove, pool.liquidity);
      var updated := pool.(liquidity := pool.liquidity - liquidityToRemove,
                           balance0 := pool.balance0 - amount0, balance1 := pool.balance1 - amount1,
                           positions := pool.positions[positionId := userLiquidity - liquidityToRemove]);
      WithdrawKeepsAccounting(pool, updated, positionId, liquidityToRemove, amount0, amount1);
      var saved := pools;
      pools := pools[poolId := updated];
      var paid0 := TryTransfer(mover, contract, Transfer(pool.token0, contract, caller, amount0));
      if paid0.Err? {
        pools := saved;
        return paid0;
      }
      var paid1 := TryTransfer(mover, contract, Transfer(pool.token1, contract, caller, amount1));
      if paid1.Err? {
        pools := saved;
        return paid1;
      }
      return Ok(());
    }

    /** `swap`: a zero input is refused before the pool is looked up; the pool
        must exist; the output comes from `SwapQuote` on the reserves of the
        chosen direction and must reach `minOutputAmount`; then the caller pays
        the input in and the contract pays the net output out. On success only
        the two reserves change. */
    method Swap(caller: Address, contract: Address, mover: Mover, poolId: Bytes32,
                inputAmount: U256, minOutputAmount: U256, zeroForOne: bool)
      returns (r: Result<()>)
      requires Valid()
      modifies this
      ensures Valid()
      ensures r.Err? ==> pools == old(pools)
      ensures var p := old(PoolAt(poolId));
              var (inputToken, outputToken) := if zeroForOne then (p.token0, p.token1) else (p.token1, p.token0);
              var (inputBalance, outputBalance) :=
                if zeroForOne then (p.balance0, p.balance1) else (p.balance1, p.balance0);
              if inputAmount == 0 then r == Err(InsufficientAmount)
              else if !Exists(p) then r == Err(PoolDoesNotExist(poolId))
              else
                var quote := SwapQuote(inputBalance, outputBalance, inputAmount, p.fee);
                if quote.Err? then r == Err(quote.error)
                else if quote.value.outputAfterFees < minOutputAmount then r == Err(TooMuchSlippage)
                else
                  && r == TransferPair(mover, contract, Transfer(inputToken, caller, contract, inputAmount),
                                       Transfer(outputToken, contract, caller, quote.value.outputAfterFees))
                  && (r.Ok? ==>
                        && poolId in pools
                        && pools == old(pools)[poolId := pools[poolId]]
                        && Swapped(p, pools[poolId], zeroForOne, inputAmount, quote.value.outputAfterFees))
    {
      if inputAmount == 0 {
        return Err(InsufficientAmount);
      }
      var pool := PoolAt(poolId);
      if !Exists(pool) {
        return Err(PoolDoesNotExist(poolId));
      }
      ValidPoolAt(poolId);
      var inputToken := if zeroForOne then pool.token0 else pool.token1;
      var outputToken := if zeroForOne then pool.token1 else pool.token0;
      var inputBalance := if zeroForOne then pool.balance0 else pool.balance1;
      var outputBalance := if zeroForOne then pool.balance1 else pool.balance0;
      var quote :- SwapQuote(inputBalance, outputBalance, inputAmount, pool.fee);
      if quote.outputAfterFees < minOutputAmount {
        return Err(TooMuchSlippage);
      }
      QuoteBounds(inputBalance, outputBalance, inputAmount, pool.fee);
      var updated :=
        if zeroForOne then
          pool.(balance0 := pool.balance0 + inputAmount, balance1 := pool.balance1 - quote.outputAfterFees)
        else
          pool.(balance0 := pool.balance0 - quote.outputAfterFees, balance1 := pool.balance1 + inputAmount);
      var saved := pools;
      pools := pools[poolId := updated];
      var paidIn := TryTransfer(mover, contract, Transfer(inputToken, caller, contract, inputAmount));
      if paidIn.Err? {
        pools := saved;
        return paidIn;
      }
      var paidOut := TryTransfer(mover, contract, Transfer(outputToken, contract, caller, quote.outputAfterFees));
      if paidOut.Err? {
        pools := saved;
        return paidOut;
      }
      return Ok(());
    }
  }
}
