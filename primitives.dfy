/**
  Fixed-width values of the contract's ABI and storage, its error variants, and
  the U256 operations it uses.

  The contract computes with 256-bit unsigned integers. This model treats every
  addition, subtraction or multiplication whose exact result does not fit, and
  every division by zero, as a revert of the whole call (`ArithmeticPanic`);
  no operation ever yields a wrapped value.
 */
module Primitives {

  /** 2^160: addresses are 20-byte values, ordered as big-endian numbers. */
  const ADDRESS_LIMIT: nat := 0x1_0000_0000_0000_0000_0000_0000_0000_0000_0000_0000
  /** 2^24: the fee is a U24. */
  const U24_LIMIT: nat := 0x100_0000
  /** 2^256 */
  const U256_LIMIT: nat := 0x1_0000_0000_0000_0000_0000_0000_0000_0000_0000_0000_0000_0000_0000_0000_0000_0000

  type Byte = b: nat | b < 256
  type Bytes = seq<Byte>
  /** A FixedBytes<32>: pool ids, position ids and keccak outputs. */
  type Bytes32 = s: Bytes | |s| == 32 witness seq(32, _ => 0)
  type Address = a: nat | a < ADDRESS_LIMIT
  type U24 = n: nat | n < U24_LIMIT
  type U256 = n: nat | n < U256_LIMIT

  /** The zero address: the sentinel of an absent pool, and the native currency. */
  const ZERO_ADDRESS: Address := 0

  /** The contract's error variants, plus the revert caused by checked arithmetic. */
  datatype Error =
    | PoolAlreadyExists(poolId: Bytes32)
    | PoolDoesNotExist(poolId: Bytes32)
    | InsufficientAmount
    | InsufficientLiquidityMinted
    | InsufficientLiquidityOwned
    | FailedOrInsufficientTokenTransfer(token: Address, sender: Address, recipient: Address, amount: U256)
    | TooMuchSlippage
    | ArithmeticPanic

  /** The `Result<_, StylusSwapError>` of every public operation; usable with `:-`. */
  datatype Result<+T> = Ok(value: T) | Err(error: Error) {
    predicate IsFailure() {
      Err?
    }

    function PropagateFailure<U>(): Result<U>
      requires Err?
    {
      Err(error)
    }

    function Extract(): T
      requires Ok?
    {
      value
    }
  }

  function CheckedAdd(a: U256, b: U256): Result<U256>
  {
    if a + b < U256_LIMIT then Ok(a + b) else Err(ArithmeticPanic)
  }

  function CheckedSub(a: U256, b: U256): Result<U256>
  {
    if b <= a then Ok(a - b) else Err(ArithmeticPanic)
  }

  function CheckedMul(a: U256, b: U256): Result<U256>
  {
    if a * b < U256_LIMIT then Ok(a * b) else Err(ArithmeticPanic)
  }

  /** Truncating division; a zero divisor reverts. */
  function CheckedDiv(a: U256, b: U256): Result<U256>
  {
    if b == 0 then Err(ArithmeticPanic) else Ok(a / b)
  }
}
