/**
  Swap math: the constant-product output for an input amount, with the fee
  taken from the output side.
 */
module SwapMath {
  import opened Primitives
  import opened LiquidityMath

  /** The gross output, the fee deducted from it, and what the trader receives. */
  datatype Quote = Quote(output: U256, fees: U256, outputAfterFees: U256)

  /** floor(in * out / (in + amount)) never exceeds `out`, so the gross output
      is never negative. */
  lemma QuotientWithinReserve(inputBalance: nat, outputBalance: nat, inputAmount: nat)
    requires inputBalance + inputAmount > 0
    ensures inputBalance * outputBalance / (inputBalance + inputAmount) <= outputBalance
  {
    var d := inputBalance + inputAmount;
    var q := inputBalance * outputBalance / d;
    DivBrackets(inputBalance * outputBalance, d);
    MulMonotone(inputBalance, d, outputBalance);
    assert q * d < (outputBalance + 1) * d;
    MulCancelLess(q, outputBalance + 1, d);
  }

  /** The gross output of `swap` for the chosen direction: with
      k = balance0 * balance1 (the same product for either direction), the
      output reserve minus k / (inputBalance + inputAmount). */
  function GrossOutput(inputBalance: U256, outputBalance: U256, inputAmount: U256): (r: Result<U256>)
    requires inputAmount > 0
    ensures r.Ok? ==> r.value <= outputBalance
  {
    var originalK :- CheckedMul(inputBalance, outputBalance);
    var denominator :- CheckedAdd(inputBalance, inputAmount);
    CheckedSub(outputBalance, originalK / denominator)
  }

  /** The fee, output * fee / 10000 (the fee is in hundredths of a percent),
      taken from the gross output. */
  function ApplyFee(output: U256, fee: U24): (r: Result<Quote>)
    ensures r.Ok? ==> r.value.output == output && r.value.fees + r.value.outputAfterFees == output
  {
    var feeProduct :- CheckedMul(output, fee);
    var fees := feeProduct / 10_000;
    var outputAfterFees :- CheckedSub(output, fees);
    Ok(Quote(output, fees, outputAfterFees))
  }

  /** The arithmetic of `swap`; the caller has already refused a zero input
      amount. */
  function SwapQuote(inputBalance: U256, outputBalance: U256, inputAmount: U256, fee: U24): Result<Quote>
    requires inputAmount > 0
  {
    var output :- GrossOutput(inputBalance, outputBalance, inputAmount);
    ApplyFee(output, fee)
  }

  lemma GrossOutputValue(inputBalance: U256, outputBalance: U256, inputAmount: U256)
    requires inputAmount > 0
    requires GrossOutput(inputBalance, outputBalance, inputAmount).Ok?
    ensures inputBalance * outputBalance < U256_LIMIT && inputBalance + inputAmount < U256_LIMIT
    ensures GrossOutput(inputBalance, outputBalance, inputAmount).value
            == outputBalance - inputBalance * outputBalance / (inputBalance + inputAmount)
  {
    assert CheckedMul(inputBalance, outputBalance).Ok?;
    assert CheckedAdd(inputBalance, inputAmount).Ok?;
  }

  lemma ApplyFeeValue(output: U256, fee: U24)
    requires ApplyFee(output, fee).Ok?
    ensures output * fee < U256_LIMIT
    ensures ApplyFee(output, fee).value
            == Quote(output, output * fee / 10_000, output - output * fee / 10_000)
  {
    assert CheckedMul(output, fee).Ok?;
  }

  /** What a successful quote pays: the gross output is the reserve minus the
      rounded-down constant-product reserve, the fee is its share at the fee
      rate, and the trader gets at most the gross output, itself at most the
      output reserve. The new input reserve fits in a U256. */
  lemma QuoteBounds(inputBalance: U256, outputBalance: U256, inputAmount: U256, fee: U24)
    requires inputAmount > 0
    requires SwapQuote(inputBalance, outputBalance, inputAmount, fee).Ok?
    ensures var q := SwapQuote(inputBalance, outputBalance, inputAmount, fee).value;
            && q.output == outputBalance - inputBalance * outputBalance / (inputBalance + inputAmount)
            && q.fees == q.output * fee / 10_000
            && q.outputAfterFees == q.output - q.fees
            && q.outputAfterFees <= q.output <= outputBalance
            && inputBalance + inputAmount < U256_LIMIT
  {
    var gross := GrossOutput(inputBalance, outputBalance, inputAmount);
    assert gross.Ok?;
    GrossOutputValue(inputBalance, outputBalance, inputAmount);
    assert SwapQuote(inputBalance, outputBalance, inputAmount, fee) == ApplyFee(gross.value, fee);
    ApplyFeeValue(gross.value, fee);
  }

  /** With a fee of at most 100% the fee never exceeds the gross output, so the
      quote fails only through an overflow of the input reserve plus the input,
      of k, or of output * fee. */
  lemma QuoteFailsOnlyByOverflow(inputBalance: U256, outputBalance: U256, inputAmount: U256, fee: U24)
    requires inputAmount > 0 && fee <= 10_000
    requires inputBalance * outputBalance < U256_LIMIT && inputBalance + inputAmount < U256_LIMIT
    requires (outputBalance - inputBalance * outputBalance / (inputBalance + inputAmount)) * fee < U256_LIMIT
    ensures SwapQuote(inputBalance, outputBalance, inputAmount, fee).Ok?
  {
    QuotientWithinReserve(inputBalance, outputBalance, inputAmount);
    var output := outputBalance - inputBalance * outputBalance / (inputBalance + inputAmount);
    MulMonotone(fee, 10_000, output);
    assert output * fee / 10_000 <= output;
  }

  /** After the swap the output reserve is never below
      floor(k / (inputBalance + inputAmount)). */
  lemma OutputReserveFloor(inputBalance: U256, outputBalance: U256, inputAmount: U256, fee: U24)
    requires inputAmount > 0
    requires SwapQuote(inputBalance, outputBalance, inputAmount, fee).Ok?
    ensures var q := SwapQuote(inputBalance, outputBalance, inputAmount, fee).value;
            outputBalance - q.outputAfterFees >= inputBalance * outputBalance / (inputBalance + inputAmount)
  {
    QuoteBounds(inputBalance, outputBalance, inputAmount, fee);
  }

  /** The product of the reserves can fall across a swap, but by less than the
      new input reserve: the rounding of k / (inputBalance + inputAmount) is the
      only loss. */
  lemma ProductLossBounded(inputBalance: U256, outputBalance: U256, inputAmount: U256, fee: U24)
    requires inputAmount > 0
    requires SwapQuote(inputBalance, outputBalance, inputAmount, fee).Ok?
    ensures var q := SwapQuote(inputBalance, outputBalance, inputAmount, fee).value;
            var newInput := inputBalance + inputAmount;
            var newOutput := outputBalance - q.outputAfterFees;
            newInput * newOutput > inputBalance * outputBalance - newInput
  {
    QuoteBounds(inputBalance, outputBalance, inputAmount, fee);
    var q := SwapQuote(inputBalance, outputBalance, inputAmount, fee).value;
    FloorProductLoss(inputBalance * outputBalance, inputBalance + inputAmount,
                     outputBalance - q.outputAfterFees);
  }

  /** Any m at least floor(k / d) has d * m above k - d. */
  lemma FloorProductLoss(k: nat, d: nat, m: nat)
    requires d > 0 && m >= k / d
    ensures d * m > k - d
  {
    DivBrackets(k, d);
    MulMonotone(k / d + 1, m + 1, d);
    assert d * m + d > k;
  }

  /** The product of the reserves does fall: reserves (1, 3), input 1, fee 30
      pay out 2, leaving reserves (2, 1) and a product of 2 instead of 3. */
  lemma ProductCanFall()
    ensures SwapQuote(1, 3, 1, 30) == Ok(Quote(2, 0, 2))
    ensures (1 + 1) * (3 - SwapQuote(1, 3, 1, 30).value.outputAfterFees) < 1 * 3
  {
    assert GrossOutput(1, 3, 1) == Ok(2);
    assert CheckedMul(2, 30) == Ok(60);
    assert ApplyFee(2, 30) == Ok(Quote(2, 0, 2));
  }

  /** Worked example: reserves (1_000_000, 2_000_000), input 1000, fee 30 give a
      gross output of 1999, a fee of 5 and a net output of 1994. */
  lemma SwapExample()
    ensures SwapQuote(1_000_000, 2_000_000, 1000, 30) == Ok(Quote(1999, 5, 1994))
  {
    assert CheckedMul(1_000_000, 2_000_000) == Ok(2_000_000_000_000);
    assert 2_000_000_000_000 / 1_001_000 == 1_998_001;
    assert GrossOutput(1_000_000, 2_000_000, 1000) == Ok(1999);
    assert CheckedMul(1999, 30) == Ok(59_970);
    assert ApplyFee(1999, 30) == Ok(Quote(1999, 5, 1994));
  }

  /** An empty input reserve hands out the whole output reserve, before fees. */
  lemma EmptyInputReserveDrainsOutput(outputBalance: U256, inputAmount: U256, fee: U24)
    requires inputAmount > 0
    requires SwapQuote(0, outputBalance, inputAmount, fee).Ok?
    ensures SwapQuote(0, outputBalance, inputAmount, fee).value.output == outputBalance
  {
    QuoteBounds(0, outputBalance, inputAmount, fee);
  }

  /** A fee above 100% can make the fee exceed the output, which reverts. */
  lemma FeeAboveWholeOutputReverts()
    ensures SwapQuote(1, 3, 1, 20_000) == Err(ArithmeticPanic)
  {
    assert GrossOutput(1, 3, 1) == Ok(2);
    assert CheckedMul(2, 20_000) == Ok(40_000);
    assert CheckedSub(2, 4) == Err(ArithmeticPanic);
  }
}
