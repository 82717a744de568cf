/**
  Liquidity math: the deposit amounts a pool accepts for a desired deposit, the
  integer square root that prices the first deposit, and the liquidity minted.
 */
module LiquidityMath {
  import opened Primitives

  /** Liquidity units the first deposit locks in the pool for good. */
  const MINIMUM_LIQUIDITY: U256 := 1000

  // ---------------------------------------------------------------------------
  // Arithmetic facts used below

  lemma MulMonotone(a: nat, b: nat, c: nat)
    requires a <= b
    ensures a * c <= b * c
  {
  }

  lemma MulCancelLess(a: nat, b: nat, c: nat)
    requires a * c < b * c
    ensures a < b
  {
    if b <= a {
      MulMonotone(b, a, c);
    }
  }

  lemma MulCancelLessEq(a: nat, b: nat, c: nat)
    requires c > 0 && a * c <= b * c
    ensures a <= b
  {
    if b < a {
      MulMonotone(b + 1, a, c);
    }
  }

  lemma MulStrict(a: nat, b: nat, c: nat)
    requires a < b && c > 0
    ensures a * c < b * c
  {
    MulMonotone(a + 1, b, c);
  }

  lemma SquareMonotone(a: nat, b: nat)
    requires a <= b
    ensures a * a <= b * b
  {
    MulMonotone(a, b, a);
    MulMonotone(a, b, b);
  }

  /** Truncating division brackets the quotient. */
  lemma QuotientAtMost(n: nat, d: nat)
    requires d > 0
    ensures n / d <= n
  {
    var q := n / d;
    DivBrackets(n, d);
    MulMonotone(1, d, q);
    assert q <= q * d;
  }

  lemma DivBrackets(n: nat, d: nat)
    requires d > 0
    ensures (n / d) * d <= n < (n / d + 1) * d
  {
  }

  // ---------------------------------------------------------------------------
  // min and get_liquidity_amounts

  /** `min`: the smaller of two values. */
  function Min(x: U256, y: U256): (r: U256)
    ensures r <= x && r <= y
    ensures r == x || r == y
  {
    if x < y then x else y
  }

  /** In the second branch of `get_liquidity_amounts` the value it compares is
      always below `amount0Desired`, so that branch never succeeds; its
      multiplication cannot overflow and its divisor is never zero. */
  lemma SecondBranchBounds(d0: U256, d1: U256, b0: U256, b1: U256)
    requires b0 > 0 && d0 * b1 < U256_LIMIT
    requires d1 < d0 * b1 / b0
    ensures b1 > 0
    ensures d1 * b0 < d0 * b1
    ensures d1 * b0 / b1 < d0
  {
    var q := d0 * b1 / b0;
    DivBrackets(d0 * b1, b0);
    MulMonotone(d1 + 1, q, b0);
    assert d1 * b0 + b0 <= d0 * b1;
    var t := d1 * b0 / b1;
    DivBrackets(d1 * b0, b1);
    MulCancelLess(t, d0, b1);
  }

  /** `get_liquidity_amounts`: the amounts of each token a deposit contributes.
      An empty pool takes the desired amounts as they are; otherwise token1 is
      matched to `amount0Desired` at the pool's price. */
  function GetLiquidityAmounts(
    amount0Desired: U256, amount1Desired: U256,
    amount0Min: U256, amount1Min: U256,
    balance0: U256, balance1: U256): (r: Result<(U256, U256)>)
    ensures r.Ok? ==> r.value.0 == amount0Desired && r.value.1 <= amount1Desired
  {
    if balance0 == 0 && balance1 == 0 then
      Ok((amount0Desired, amount1Desired))
    else
      var product1 :- CheckedMul(amount0Desired, balance1);
      var amount1Optimal :- CheckedDiv(product1, balance0);
      if amount1Optimal <= amount1Desired then
        if amount1Optimal < amount1Min then Err(InsufficientAmount)
        else Ok((amount0Desired, amount1Optimal))
      else
        var product0 :- CheckedMul(amount1Desired, balance0);
        var amount0Optimal :- CheckedDiv(product0, balance1);
        SecondBranchBounds(amount0Desired, amount1Desired, balance0, balance1);
        if amount0Optimal < amount0Desired then Err(InsufficientAmount)
        else Ok((amount0Optimal, amount1Desired))
  }

  /** The first deposit into an empty pool sets the price: nothing is adjusted. */
  lemma FirstDepositTakesDesired(d0: U256, d1: U256, m0: U256, m1: U256)
    ensures GetLiquidityAmounts(d0, d1, m0, m1, 0, 0) == Ok((d0, d1))
  {
  }

  /** Every successful deposit into a non-empty pool supplies all of
      `amount0Desired` and floor(amount0Desired * balance1 / balance0) of token1,
      which lies between the caller's minimum and desired amounts. */
  lemma AmountsFollowPoolRatio(d0: U256, d1: U256, m0: U256, m1: U256, b0: U256, b1: U256)
    requires b0 != 0 || b1 != 0
    requires GetLiquidityAmounts(d0, d1, m0, m1, b0, b1).Ok?
    ensures b0 > 0 && d0 * b1 < U256_LIMIT
    ensures GetLiquidityAmounts(d0, d1, m0, m1, b0, b1).value == (d0, d0 * b1 / b0)
    ensures m1 <= d0 * b1 / b0 <= d1
  {
    if b0 > 0 && d0 * b1 < U256_LIMIT && d0 * b1 / b0 > d1 {
      SecondBranchBounds(d0, d1, b0, b1);
    }
  }

  /** The deposit amounts into a non-empty pool whose token0 reserve is
      positive, stated outright: when amount0Desired * balance1 fits, the
      deposit is accepted exactly when the matched token1 amount lies between
      the caller's minimum and desired amounts, and is otherwise refused with
      `InsufficientAmount`. */
  lemma AmountsExact(d0: U256, d1: U256, m0: U256, m1: U256, b0: U256, b1: U256)
    requires b0 > 0 && d0 * b1 < U256_LIMIT
    ensures GetLiquidityAmounts(d0, d1, m0, m1, b0, b1)
            == if m1 <= d0 * b1 / b0 <= d1 then Ok((d0, d0 * b1 / b0)) else Err(InsufficientAmount)
  {
    if d0 * b1 / b0 > d1 {
      SecondBranchAlwaysFails(d0, d1, m0, m1, b0, b1);
    }
  }

  /** A successful deposit into a non-empty pool keeps the pool's price up to
      the truncation of one token1 unit: a1/a0 is b1/b0 rounded down. */
  lemma DepositMatchesPoolPrice(d0: U256, d1: U256, m0: U256, m1: U256, b0: U256, b1: U256)
    requires b0 != 0 || b1 != 0
    requires GetLiquidityAmounts(d0, d1, m0, m1, b0, b1).Ok?
    ensures var (a0, a1) := GetLiquidityAmounts(d0, d1, m0, m1, b0, b1).value;
            a1 * b0 <= a0 * b1 < (a1 + 1) * b0
  {
    AmountsFollowPoolRatio(d0, d1, m0, m1, b0, b1);
    DivBrackets(d0 * b1, b0);
  }

  /** When the matched token1 amount exceeds `amount1Desired` the deposit is
      always refused, whatever the minimums: the comparison at the end of the
      function is against `amount0Desired`, which the value never reaches. */
  lemma SecondBranchAlwaysFails(d0: U256, d1: U256, m0: U256, m1: U256, b0: U256, b1: U256)
    requires b0 > 0 && d0 * b1 < U256_LIMIT
    requires d0 * b1 / b0 > d1
    ensures GetLiquidityAmounts(d0, d1, m0, m1, b0, b1) == Err(InsufficientAmount)
  {
    SecondBranchBounds(d0, d1, b0, b1);
  }

  /** A pool with no token0 but some token1 reverts on a division by zero. */
  lemma EmptyToken0ReservePanics(d0: U256, d1: U256, m0: U256, m1: U256, b1: U256)
    requires b1 > 0
    ensures GetLiquidityAmounts(d0, d1, m0, m1, 0, b1) == Err(ArithmeticPanic)
  {
  }

  /** `amount0Min` never influences the outcome. */
  lemma Amount0MinIgnored(d0: U256, d1: U256, m0: U256, m0': U256, m1: U256, b0: U256, b1: U256)
    ensures GetLiquidityAmounts(d0, d1, m0, m1, b0, b1) == GetLiquidityAmounts(d0, d1, m0', m1, b0, b1)
  {
  }

  // ---------------------------------------------------------------------------
  // interger_sqrt

  /** The floor of the square root, defined by counting up: the reference the
      Newton iteration is proved against. */
  function FloorSqrt(x: nat): (r: nat)
    ensures r * r <= x < (r + 1) * (r + 1)
    ensures r <= x
  {
    if x == 0 then 0
    else
      var s := FloorSqrt(x - 1);
      if (s + 1) * (s + 1) <= x then s + 1 else s
  }

  /** The bracketing property determines the root. */
  lemma FloorSqrtUnique(x: nat, r: nat)
    requires r * r <= x < (r + 1) * (r + 1)
    ensures FloorSqrt(x) == r
  {
    var s := FloorSqrt(x);
    if s < r {
      SquareMonotone(s + 1, r);
    } else if r < s {
      SquareMonotone(r + 1, s);
    }
  }

  /** z (2r - z) never exceeds r^2. */
  lemma ProductBelowSquare(r: int, z: int)
    ensures z * (2 * r - z) <= r * r
  {
    assert r * r - z * (2 * r - z) == (r - z) * (r - z);
  }

  /** A Newton step from any positive guess does not go below the root. */
  lemma NewtonStepStaysAbove(x: nat, z: nat, r: nat)
    requires z > 0 && r * r <= x
    ensures r <= (x / z + z) / 2
  {
    var q := x / z;
    DivBrackets(x, z);
    assert x < (q + 1) * z;
    if z < 2 * r {
      var d := 2 * r - z;
      ProductBelowSquare(r, z);
      assert z * d <= x;
      assert d * z < (q + 1) * z;
      MulCancelLess(d, q + 1, z);
      assert 2 * r <= q + z;
    }
  }

  /** While the guess squares above x, a Newton step strictly lowers it. */
  lemma NewtonStepDescends(x: nat, y: nat)
    requires y > 0 && y * y > x
    ensures (x / y + y) / 2 < y
  {
    var q := x / y;
    DivBrackets(x, y);
    assert q * y < y * y;
    MulCancelLess(q, y, y);
    assert q + y < 2 * y;
  }

  /** The sum inside a Newton step does not exceed x + 1. */
  lemma NewtonSumBounded(x: nat, z: nat)
    requires 1 <= z <= x
    ensures x / z + z <= x + 1
  {
    DivBrackets(x, z);
    assert z * (x + 1 - z) - x == (z - 1) * (x - z);
    assert (x / z) * z < (x + 2 - z) * z;
    MulCancelLess(x / z, x + 2 - z, z);
  }

  /** The initial guess (x + 1) / 2 is at least the root. */
  lemma InitialGuessAbove(x: nat, r: nat)
    requires r * r <= x
    ensures r <= (x + 1) / 2
  {
    assert r * r + 1 - 2 * r == (r - 1) * (r - 1);
  }

  /** `interger_sqrt`: Newton's iteration from y = x, z = (x + 1) >> 1, run
      while z < y. Reverts only when x + 1 overflows; otherwise returns the
      floor of the square root of x. */
  method IntegerSqrt(x: U256) returns (r: Result<U256>)
    ensures r.Err? <==> x + 1 == U256_LIMIT
    ensures r.Err? ==> r.error == ArithmeticPanic
    ensures r.Ok? ==> r.value * r.value <= x < (r.value + 1) * (r.value + 1)
    ensures r.Ok? ==> r.value == FloorSqrt(x)
  {
    var xPlusOne :- CheckedAdd(x, 1);
    var z: U256 := xPlusOne / 2;
    var y: U256 := x;
    ghost var root := FloorSqrt(x);
    InitialGuessAbove(x, root);
    while z < y
      invariant root <= z && root <= y <= x
      invariant y * y > x ==> z < y
      invariant x > 0 ==> root > 0
      decreases y
    {
      y := z;
      NewtonSumBounded(x, z);
      NewtonStepStaysAbove(x, z, root);
      if y * y > x {
        NewtonStepDescends(x, y);
      }
      z := (x / z + z) / 2;
    }
    SquareMonotone(root + 1, y + 1);
    FloorSqrtUnique(x, y);
    return Ok(y);
  }

  // ---------------------------------------------------------------------------
  // Liquidity minted by add_liquidity

  /** Liquidity credited to the depositor and added to the pool's total. */
  datatype Mint = Mint(user: U256, pool: U256)

  /** Reference definition of the liquidity a deposit of (amount0, amount1)
      mints into a pool with total `liquidity` and reserves (balance0, balance1),
      stated with the floor square root rather than the Newton loop. */
  function MintOutcome(amount0: U256, amount1: U256, liquidity: U256, balance0: U256, balance1: U256): (r: Result<Mint>)
    ensures r.Ok? ==> r.value.pool > 0
    ensures r.Ok? ==> r.value.pool == r.value.user + (if liquidity == 0 then MINIMUM_LIQUIDITY else 0)
  {
    if liquidity == 0 then
      var product := amount0 * amount1;
      if product + 1 >= U256_LIMIT then Err(ArithmeticPanic)
      else
        var root := FloorSqrt(product);
        if root < MINIMUM_LIQUIDITY then Err(ArithmeticPanic)
        else Ok(Mint(root - MINIMUM_LIQUIDITY, root))
    else
      var product0 := amount0 * liquidity;
      var product1 := amount1 * liquidity;
      if product0 >= U256_LIMIT || product1 >= U256_LIMIT || balance0 == 0 || balance1 == 0 then
        Err(ArithmeticPanic)
      else
        QuotientAtMost(product0, balance0);
        QuotientAtMost(product1, balance1);
        var minted := Min(product0 / balance0, product1 / balance1);
        if minted == 0 then Err(InsufficientLiquidityMinted) else Ok(Mint(minted, minted))
  }

  /** The minting step of `add_liquidity`: sqrt(amount0 * amount1) - 1000 for
      the first deposit, min(amount0 * L / balance0, amount1 * L / balance1)
      later; the pool also counts the locked 1000 on the first deposit; a zero
      pool amount is refused. */
  method ComputeMint(amount0: U256, amount1: U256, liquidity: U256, balance0: U256, balance1: U256)
    returns (r: Result<Mint>)
    ensures r == MintOutcome(amount0, amount1, liquidity, balance0, balance1)
  {
    var isInitialLiquidity := liquidity == 0;
    var newUserLiquidity: U256;
    if isInitialLiquidity {
      var product :- CheckedMul(amount0, amount1);
      var root :- IntegerSqrt(product);
      newUserLiquidity :- CheckedSub(root, MINIMUM_LIQUIDITY);
    } else {
      var product0 :- CheckedMul(amount0, liquidity);
      var l0 :- CheckedDiv(product0, balance0);
      var product1 :- CheckedMul(amount1, liquidity);
      var l1 :- CheckedDiv(product1, balance1);
      newUserLiquidity := Min(l0, l1);
    }
    var newPoolLiquidity: U256 :=
      if isInitialLiquidity then newUserLiquidity + MINIMUM_LIQUIDITY else newUserLiquidity;
    if newPoolLiquidity == 0 {
      return Err(InsufficientLiquidityMinted);
    }
    return Ok(Mint(newUserLiquidity, newPoolLiquidity));
  }

  /** A first deposit succeeds exactly when amount0 * amount1 is at least
      1000^2 (and x + 1 fits); it is never refused as under-minted, and the pool
      then holds the depositor's credit plus the locked 1000. */
  lemma FirstDepositOutcome(amount0: U256, amount1: U256, balance0: U256, balance1: U256)
    ensures var r := MintOutcome(amount0, amount1, 0, balance0, balance1);
            && (r.Ok? <==> 1_000_000 <= amount0 * amount1 < U256_LIMIT - 1)
            && (r.Err? ==> r.error == ArithmeticPanic)
            && (r.Ok? ==> r.value.pool == r.value.user + MINIMUM_LIQUIDITY)
  {
    var x := amount0 * amount1;
    var s := FloorSqrt(x);
    if x >= 1_000_000 && s < 1000 {
      SquareMonotone(s + 1, 1000);
    }
    if s >= 1000 {
      SquareMonotone(1000, s);
    }
  }

  /** A first deposit whose product has square root exactly 1000 succeeds and
      credits the depositor nothing: the pool's 1000 units are all locked. */
  lemma RootOfLockedAmountCreditsNothing(amount0: U256, amount1: U256, balance0: U256, balance1: U256)
    requires 1_000_000 <= amount0 * amount1 < 1001 * 1001
    ensures MintOutcome(amount0, amount1, 0, balance0, balance1) == Ok(Mint(0, 1000))
  {
    FloorSqrtUnique(amount0 * amount1, 1000);
  }

  /** A later deposit mints the same amount to the pool and the depositor, no
      more than either side of the deposit justifies, and equal to one side's. */
  lemma LaterMintWithinBothRatios(amount0: U256, amount1: U256, liquidity: U256, balance0: U256, balance1: U256)
    requires liquidity > 0
    requires MintOutcome(amount0, amount1, liquidity, balance0, balance1).Ok?
    ensures var m := MintOutcome(amount0, amount1, liquidity, balance0, balance1).value;
            && m.user == m.pool > 0
            && m.user * balance0 <= amount0 * liquidity
            && m.user * balance1 <= amount1 * liquidity
            && (m.user == amount0 * liquidity / balance0 || m.user == amount1 * liquidity / balance1)
  {
    var m := MintOutcome(amount0, amount1, liquidity, balance0, balance1).value;
    var l0 := amount0 * liquidity / balance0;
    var l1 := amount1 * liquidity / balance1;
    DivBrackets(amount0 * liquidity, balance0);
    DivBrackets(amount1 * liquidity, balance1);
    MulMonotone(m.user, l0, balance0);
    MulMonotone(m.user, l1, balance1);
  }

  /** Worked example: a first deposit of (1_000_000, 1_000_000) puts 1_000_000
      units in the pool and credits 999_000 to the depositor. */
  lemma FirstDepositExample()
    ensures MintOutcome(1_000_000, 1_000_000, 0, 0, 0) == Ok(Mint(999_000, 1_000_000))
  {
    FloorSqrtUnique(1_000_000 * 1_000_000, 1_000_000);
  }

  // ---------------------------------------------------------------------------
  // Amounts paid out by remove_liquidity

  /** The share of each reserve that burning `liquidityToRemove` of the pool's
      `liquidity` pays out: floor(balance * liquidityToRemove / liquidity) of
      each token, refused when either share rounds to zero. */
  function WithdrawAmounts(balance0: U256, balance1: U256, liquidityToRemove: U256, liquidity: U256): (r: Result<(U256, U256)>)
    ensures r.Ok? ==> 0 < r.value.0 && 0 < r.value.1
  {
    var product0 :- CheckedMul(balance0, liquidityToRemove);
    var amount0 :- CheckedDiv(product0, liquidity);
    var product1 :- CheckedMul(balance1, liquidityToRemove);
    var amount1 :- CheckedDiv(product1, liquidity);
    if amount0 == 0 || amount1 == 0 then Err(InsufficientLiquidityOwned) else Ok((amount0, amount1))
  }

  /** A refused withdrawal: from a pool with no liquidity it reverts; otherwise,
      when the products fit, it is refused exactly when one reserve's share
      rounds to zero. */
  lemma WithdrawRefusals(balance0: U256, balance1: U256, liquidityToRemove: U256, liquidity: U256)
    ensures liquidity == 0 ==>
      WithdrawAmounts(balance0, balance1, liquidityToRemove, liquidity) == Err(ArithmeticPanic)
    ensures liquidity > 0 && balance0 * liquidityToRemove < U256_LIMIT && balance1 * liquidityToRemove < U256_LIMIT ==>
      (WithdrawAmounts(balance0, balance1, liquidityToRemove, liquidity) == Err(InsufficientLiquidityOwned)
       <==> balance0 * liquidityToRemove < liquidity || balance1 * liquidityToRemove < liquidity)
  {
    if liquidity > 0 {
      QuotientZero(balance0 * liquidityToRemove, liquidity);
      QuotientZero(balance1 * liquidityToRemove, liquidity);
    }
  }

  lemma QuotientZero(n: nat, d: nat)
    requires d > 0
    ensures n / d == 0 <==> n < d
  {
    DivBrackets(n, d);
    if n / d > 0 {
      MulMonotone(1, n / d, d);
    }
  }

  /** A successful withdrawal pays each token in proportion to the liquidity
      burned, rounded down, and never more than the reserve; while some of the
      pool's liquidity stays behind, each reserve keeps a positive balance. */
  lemma WithdrawProportional(balance0: U256, balance1: U256, liquidityToRemove: U256, liquidity: U256)
    requires WithdrawAmounts(balance0, balance1, liquidityToRemove, liquidity).Ok?
    ensures var (amount0, amount1) := WithdrawAmounts(balance0, balance1, liquidityToRemove, liquidity).value;
            && liquidity > 0 && amount0 > 0 && amount1 > 0
            && amount0 * liquidity <= balance0 * liquidityToRemove < (amount0 + 1) * liquidity
            && amount1 * liquidity <= balance1 * liquidityToRemove < (amount1 + 1) * liquidity
            && (liquidityToRemove <= liquidity ==> amount0 <= balance0 && amount1 <= balance1)
            && (liquidityToRemove < liquidity ==> amount0 < balance0 && amount1 < balance1)
  {
    var (amount0, amount1) := WithdrawAmounts(balance0, balance1, liquidityToRemove, liquidity).value;
    DivBrackets(balance0 * liquidityToRemove, liquidity);
    DivBrackets(balance1 * liquidityToRemove, liquidity);
    if liquidityToRemove <= liquidity {
      ShareWithinWhole(balance0, liquidityToRemove, liquidity);
      ShareWithinWhole(balance1, liquidityToRemove, liquidity);
    }
  }

  /** floor(b * l / L) is at most b when l <= L, and below b when l < L and b > 0. */
  lemma ShareWithinWhole(b: nat, l: nat, total: nat)
    requires 0 < total && l <= total
    ensures b * l / total <= b
    ensures l < total && b > 0 ==> b * l / total < b
  {
    var bl := b * l;
    var a := bl / total;
    DivBrackets(bl, total);
    assert a * total <= bl;
    MulMonotone(l, total, b);
    assert bl <= total * b;
    MulCancelLessEq(a, b, total);
    if l < total && b > 0 {
      MulStrict(l, total, b);
      assert bl < total * b;
      MulCancelLess(a, b, total);
    }
  }
}
