# StylusSwap pool accounting, in Dafny

This project models the core of the StylusSwap contract: a constant-product
automated market maker written for Arbitrum Stylus, where every pool is a pair of
tokens with a fee. All of the core is in `src/lib.rs`. The model covers:

- **Identity.** A pool id is the keccak-256 hash of the sorted token pair and the
  fee (`get_pool_id`). A position id is the hash of a pool id and an owner
  (`get_position_id`).
- **Deposit math.** `get_liquidity_amounts` matches a deposit to the pool's
  price. `interger_sqrt` is a Newton iteration that prices the first deposit.
  `min` is a helper. Minting locks 1000 units of liquidity on the first deposit.
- **Withdrawal and swap math.** A withdrawal pays out a pro-rata share of each
  reserve. A swap follows the constant-product formula and takes its fee from
  the output.
- **The ledger.** The `StylusSwap` class holds the `pools` mapping. Its methods
  model `create_pool`, `add_liquidity`, `remove_liquidity` and `swap`. The
  function `get_position_liquidity` reads it. A method either returns an error
  and leaves `pools` unchanged, or commits one pool's new record.

Modules, in dependency order:

| file | module | contents |
|---|---|---|
| `primitives.dfy` | `Primitives` | U256, U24, addresses, 32-byte values, the error variants, checked arithmetic |
| `abi.dfy` | `Abi` | the 32-byte big-endian words of `abi_encode_sequence` and their injectivity |
| `identity.dfy` | `Identity` | pool and position ids over an uninterpreted hash |
| `liquidity_math.dfy` | `LiquidityMath` | deposit amounts, integer square root, minting, withdrawal amounts |
| `pool_records.dfy` | `PoolRecords` | the Pool record, the sum of its positions, the accounting invariant |
| `swap_math.dfy` | `SwapMath` | the swap output and fee |
| `ledger.dfy` | `Ledger` | token transfers as an oracle, and the `StylusSwap` class |

How the model treats the outside world:

- **Arithmetic.** U256 operations are checked. An overflow, an underflow or a
  division by zero is `Err(ArithmeticPanic)`, which stands for a revert of the
  whole call. No operation yields a wrapped value.
- **Hashing.** keccak-256 is the class constant `keccak` of type
  `Bytes -> Bytes32`. Nothing is known about it, so no property depends on it
  being collision-free. The byte string it hashes is modelled exactly: one
  32-byte big-endian word per value.
- **Environment.** The caller (`msg_sender`) and the contract's own address are
  method parameters (`caller`, `contract`).
- **Transfers.** Whether the token contract or the host carries out a transfer
  is a parameter `mover: Transfer -> bool`. `TryTransfer` keeps the check that
  the contract is the sender or the recipient. The other checks of
  `try_transfer_token` are part of the mover: that `msg_value` covers an ether
  deposit, the refund of excess ether, and the transfers themselves.
- **Reverts.** An `Err` return reverts the call, so when a transfer fails after
  the pool record was written, the method puts the old `pools` back.

The invariant `StylusSwap.Valid()` holds for every stored record:

- its id is the hash of its own sorted tokens and fee;
- its `liquidity` is either 0 with no credited positions, or exactly the sum of
  its positions plus the 1000 locked units;
- a record whose tokens are both zero holds no liquidity, no reserves and no
  positions.

Every method requires and preserves it.

Consequences of the code as written:

- A first deposit of (1000, 1000) gives a square root of exactly 1000. It
  succeeds, puts 1000 units in the pool and credits the depositor 0. It is not
  refused: the zero check tests the pool's new liquidity, not the depositor's
  credit (`RootOfLockedAmountCreditsNothing`).
- On a first deposit, the model never returns `InsufficientLiquidityMinted`. A
  product below 1000² makes `root - 1000` (src/lib.rs:163) underflow, and the
  model treats this underflow as a revert (`FirstDepositOutcome`). The code
  uses the plain U256 `-` there; what a wrapping subtraction would do instead
  is under "## Left out".
- Reserves (1_000_000, 2_000_000), input 1000 and fee 30 give a gross output of
  1999 and a fee of 5, so the trader receives 1994 (`SwapExample`).
- The division by `balance1` in the second branch of `get_liquidity_amounts`
  never divides by zero. That branch is reached only when `balance1 > 0`
  (`SecondBranchBounds`).
- That second branch can never succeed (`SecondBranchAlwaysFails`), so
  `amount0Min` never affects the result (`Amount0MinIgnored`).

## Model

| member | source | states |
|---|---|---|
| Identity.GetPoolId | src/lib.rs:207-227 | the returned tokens are the two inputs in ascending order |
| Identity.PoolIdsDistinct | src/lib.rs:207-227 | when the hash does not collide on the two encodings, two calls give the same pool id exactly when they name the same unordered token pair and the same fee |
| Identity.GetPositionId | src/lib.rs:229-233 | the hash of the pool id followed by the owner's word; it has no contract of its own, and PositionIdsDistinct states what it promises |
| Identity.PositionIdsDistinct | src/lib.rs:229-233 | when the hash does not collide on the two encodings, two positions share an id exactly when they have the same pool and the same owner |
| Identity.GetPoolIdOrderIndependent | src/lib.rs:213-225 | naming the same two tokens in either order gives the same pool id and the same sorted tokens |
| Abi.PoolKeyEncodingInjective | src/lib.rs:223-224 | the ABI encoding of (token0, token1, fee) determines all three values; this concerns the hash input only, and PoolIdsDistinct carries it to pool ids |
| Abi.PositionKeyEncodingInjective | src/lib.rs:230-231 | the ABI encoding of (pool id, owner) determines both values; this concerns the hash input only, and PositionIdsDistinct carries it to position ids |
| Abi.WordRoundTrip | src/lib.rs:223-224 | a 32-byte big-endian word decodes back to the number it encodes |
| Abi.BigEndianRoundTrip | src/lib.rs:223-224 | decoding a big-endian encoding of any length gives back the number |
| LiquidityMath.Min | src/lib.rs:446-451 | the result is one of the two inputs and is at most each of them |
| LiquidityMath.GetLiquidityAmounts | src/lib.rs:242-267 | any success takes all of amount0Desired and at most amount1Desired; AmountsExact and FirstDepositTakesDesired give the result exactly |
| LiquidityMath.AmountsExact | src/lib.rs:251-266 | with b0 > 0 and amount0Desired·b1 fitting, the result is (amount0Desired, floor(amount0Desired·b1/b0)) when amount1Min ≤ that value ≤ amount1Desired, and InsufficientAmount otherwise |
| LiquidityMath.FirstDepositTakesDesired | src/lib.rs:251-253 | with both reserves zero, the desired amounts are taken unchanged |
| LiquidityMath.AmountsFollowPoolRatio | src/lib.rs:251-266 | with a non-empty pool, any success is (amount0Desired, floor(amount0Desired·b1/b0)), with b0 > 0 and amount1Min ≤ amount1 ≤ amount1Desired |
| LiquidityMath.DepositMatchesPoolPrice | src/lib.rs:254-259 | an accepted deposit matches the pool price up to rounding: a1·b0 ≤ a0·b1 < (a1+1)·b0 |
| LiquidityMath.SecondBranchBounds | src/lib.rs:261 | when the first branch is not taken, balance1 > 0 and amount1Desired·balance0 neither overflows nor reaches amount0Desired·balance1 |
| LiquidityMath.SecondBranchAlwaysFails | src/lib.rs:255-266 | when floor(amount0Desired·b1/b0) exceeds amount1Desired, the result is always InsufficientAmount |
| LiquidityMath.EmptyToken0ReservePanics | src/lib.rs:251-254 | a pool with balance0 = 0 and balance1 > 0 reverts on division by zero |
| LiquidityMath.Amount0MinIgnored | src/lib.rs:242-266 | the result does not depend on amount0Min |
| LiquidityMath.FloorSqrt | src/lib.rs:434-444 | reference square root: r·r ≤ x < (r+1)·(r+1) |
| LiquidityMath.FloorSqrtUnique | src/lib.rs:434-444 | the bracketing root is unique |
| LiquidityMath.IntegerSqrt | src/lib.rs:434-444 | the Newton loop terminates and returns floor(√x); it reverts only when x + 1 overflows |
| LiquidityMath.MintOutcome | src/lib.rs:162-179 | reference definition of minting: a success adds a positive amount to the pool, namely the user's credit plus 1000 on a first deposit and the credit itself later |
| LiquidityMath.ComputeMint | src/lib.rs:162-179 | the minted liquidity equals the reference MintOutcome, error cases included |
| LiquidityMath.FirstDepositOutcome | src/lib.rs:162-179 | a first deposit succeeds exactly when 1000² ≤ a0·a1 < 2^256 − 1; every refusal is a revert; the pool gets the user's credit plus 1000 |
| LiquidityMath.RootOfLockedAmountCreditsNothing | src/lib.rs:162-179 | a first deposit whose product has root 1000 succeeds, credits 0 and puts 1000 in the pool |
| LiquidityMath.LaterMintWithinBothRatios | src/lib.rs:164-179 | a later deposit mints the same amount to pool and user, is positive, is within both a_i·L/b_i and equals one of them |
| LiquidityMath.FirstDepositExample | src/lib.rs:162-172 | a first deposit of (10^6, 10^6) puts 10^6 units in the pool and credits 999_000 |
| LiquidityMath.WithdrawAmounts | src/lib.rs:312-319 | a successful withdrawal pays a positive amount of each token; WithdrawRefusals and WithdrawProportional give the outcome exactly |
| LiquidityMath.WithdrawRefusals | src/lib.rs:312-319 | with no liquidity the withdrawal reverts; otherwise, when the products fit, it is InsufficientLiquidityOwned exactly when some balance_i·l < L |
| LiquidityMath.WithdrawProportional | src/lib.rs:312-319 | a successful withdrawal pays floor(balance_i·l/L) of each token, positive, at most balance_i when l ≤ L and below it when l < L |
| PoolRecords.PositionWithinPool | src/lib.rs:33-44 | under the accounting invariant, a position holds 0 or leaves at least 1000 units of the pool's liquidity |
| PoolRecords.SumUpdate | src/lib.rs:186-189 | writing one position changes the sum of positions by exactly that position's change |
| PoolRecords.DepositKeepsAccounting | src/lib.rs:170-189 | a deposit keeps liquidity = sum of positions + 1000 |
| PoolRecords.WithdrawKeepsAccounting | src/lib.rs:321-328 | a withdrawal of at most the owned liquidity keeps the accounting and leaves at least 1000 units |
| SwapMath.GrossOutput | src/lib.rs:375-383 | a successful gross output is at most the output reserve; GrossOutputValue gives its value |
| SwapMath.ApplyFee | src/lib.rs:387-389 | a successful fee deduction keeps the gross output and splits it exactly into fee and net output; ApplyFeeValue gives both parts |
| SwapMath.SwapQuote | src/lib.rs:375-389 | the gross output followed by the fee deduction; it has no contract of its own, and QuoteBounds and QuoteFailsOnlyByOverflow say what it pays and when it succeeds |
| SwapMath.GrossOutputValue | src/lib.rs:375-383 | a successful gross output is outputBalance − floor(k/(inputBalance+inputAmount)), with k and the new input reserve fitting in a U256 |
| SwapMath.ApplyFeeValue | src/lib.rs:387-389 | a successful fee deduction charges floor(output·fee/10000) and pays the rest |
| SwapMath.QuotientWithinReserve | src/lib.rs:383 | floor(k/(inputBalance+inputAmount)) never exceeds the output reserve |
| SwapMath.QuoteBounds | src/lib.rs:375-389 | a successful quote pays outputAfterFees ≤ output ≤ outputBalance, with the fee at its rate |
| SwapMath.QuoteFailsOnlyByOverflow | src/lib.rs:375-389 | with fee ≤ 10000, a quote fails only when k, the new input reserve or output·fee overflows |
| SwapMath.OutputReserveFloor | src/lib.rs:383-404 | the new output reserve is at least floor(k/(inputBalance+inputAmount)) |
| SwapMath.ProductLossBounded | src/lib.rs:383-404 | the reserve product can fall, but by less than the new input reserve |
| SwapMath.ProductCanFall | src/lib.rs:375-404 | reserves (1, 3), input 1 and fee 30 pay out 2, and the product falls from 3 to 2 |
| SwapMath.SwapExample | src/lib.rs:375-389 | reserves (10^6, 2·10^6), input 1000 and fee 30 give gross 1999, fee 5 and net 1994 |
| SwapMath.EmptyInputReserveDrainsOutput | src/lib.rs:375-383 | with an empty input reserve the gross output is the whole output reserve |
| SwapMath.FeeAboveWholeOutputReverts | src/lib.rs:387-389 | a fee above 10000 can exceed the output, and the swap then reverts |
| Ledger.TryTransfer | src/lib.rs:453-471 | a transfer succeeds exactly when the contract is sender or recipient and the mover carries it out; a failure names the transfer (see "## Left out" for a failed refund) |
| Ledger.StylusSwap.GetPositionLiquidity | src/lib.rs:235-240 | an unstored position reads 0; in a valid state a position holds 0 or leaves at least 1000 units of the pool's liquidity |
| Ledger.StylusSwap.CreatePool | src/lib.rs:87-120 | an existing pool gives PoolAlreadyExists and no change; otherwise only that id's record becomes the sorted tokens and fee with nothing in it; unless both tokens are zero, a second call then fails |
| Ledger.StylusSwap.AddLiquidity | src/lib.rs:123-204 | every error in order (missing pool, deposit amounts, minting, overflow, transfers) with no change; on success only the pool's liquidity, balances and the caller's position change, by exactly the minted amounts |
| Ledger.StylusSwap.RemoveLiquidity | src/lib.rs:273-345 | every error in order (missing pool, l above the caller's position, withdrawal refusals, transfers) with no change; on success liquidity and the position fall by l and each balance by its share |
| Ledger.StylusSwap.Swap | src/lib.rs:348-429 | a zero input is refused before the lookup, then a missing pool, a failed quote, slippage and the transfers, each with no change; on success only the two reserves change |

## Left out

- Wrap-around U256 arithmetic: every overflow, underflow and division by zero is
  a revert (`ArithmeticPanic`). The code uses the plain U256 operators, and a
  build that wraps instead is not modelled. On a first deposit that build would
  differ: a zero product gives a root of 0, the credit `0 - 1000` wraps, the
  pool amount wraps back to 0, and `InsufficientLiquidityMinted` is returned. A
  root between 1 and 999 would credit 2^256 − (1000 − root).
- keccak-256 itself is an uninterpreted function. No property relies on it being
  collision-free.
- The internals of `try_transfer_token` (src/lib.rs:473-536) are the mover
  parameter. These are the ERC-20 `transfer` and `transferFrom` calls,
  `transfer_eth`, the `msg_value` check and the recursive refund of excess
  ether.
- Ledger.TryTransfer: a failed refund of excess ether is reported as a failure
  of the outer transfer (caller to contract, the deposited amount). The
  contract reports the refund transfer (src/lib.rs:499-503): contract to
  caller, the excess. Both revert the whole call, so the state is the same.
  The outcome of a transfer also depends only on the transfer itself, not on
  an earlier transfer in the same call.
- Events (`log`) are not modelled. They are output only.
- The `FailedToReturnExtraEth` error is not modelled. The contract declares it
  but never returns it.
- The `owner` field of a position is not modelled. The contract never writes it.
  A position is modelled as its liquidity alone.
- The storage macros, ABI export and entry-point plumbing are replaced by the
  `pools` map of the class.
- Re-entrancy and concurrent calls: one call runs at a time. A revert is atomic.
- Ledger.StylusSwap.AddLiquidity: the position update `user + credit` is not
  checked. It cannot overflow once the pool's new liquidity fits, which is
  proved, so no error case is lost.
