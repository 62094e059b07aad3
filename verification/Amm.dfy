/**
 The constant-product swap formula: the Rust form (wrapping), the Solidity form (checked) and the
 exact integer form, with the laws of the exact form.
 */
module Amm {
  import opened Words

  const FEE_NUM: nat := 997
  const FEE_DEN: nat := 1000
  const PRICE_SCALE: nat := ONE_ETHER

  /** Outcome of a Rust quote: division by a wrapped-to-zero denominator panics. */
  datatype Quote = Panic | NoQuote | Quoted(amount: U256)

  // ----- The code -----

  /** `get_amount_out`. */
  function GetAmountOut(amountIn: U256, reserveIn: U256, reserveOut: U256): Quote {
    if reserveIn == 0 || reserveOut == 0 then NoQuote
    else
      var withFee := WrapMul(amountIn, FEE_NUM);
      var numerator := WrapMul(withFee, reserveOut);
      var denominator := WrapAdd(WrapMul(reserveIn, FEE_DEN), withFee);
      if denominator == 0 then Panic
      else
        QuotientFits(numerator, denominator);
        Quoted(numerator / denominator)
  }

  /** `get_spot_price`. */
  function GetSpotPrice(reserveIn: U256, reserveOut: U256): Quote {
    if reserveIn == 0 then NoQuote
    else
      QuotientFits(WrapMul(reserveOut, PRICE_SCALE), reserveIn);
      Quoted(WrapMul(reserveOut, PRICE_SCALE) / reserveIn)
  }

  /** `calculate_profit`: `tokenIn -> tokenOut` on pool A, then back on pool B. */
  function CalculateProfit(amountIn: U256, aIn: U256, aOut: U256, bIn: U256, bOut: U256): Quote {
    match GetAmountOut(amountIn, aIn, aOut)
    case Panic => Panic
    case NoQuote => NoQuote
    case Quoted(mid) =>
      match GetAmountOut(mid, bIn, bOut)
      case Panic => Panic
      case NoQuote => NoQuote
      case Quoted(final) => if final > amountIn then Quoted(final - amountIn) else NoQuote
  }

  /** `_getAmountOut` of the contract: `None` is a revert. */
  function CheckedAmountOut(amountIn: U256, reserveIn: U256, reserveOut: U256): Option<U256> {
    if reserveIn == 0 || reserveOut == 0 then None
    else
      match (CheckedMul(amountIn, FEE_NUM), CheckedMul(reserveIn, FEE_DEN))
      case (Some(withFee), Some(scaledReserve)) =>
        (match (CheckedMul(withFee, reserveOut), CheckedAdd(scaledReserve, withFee))
         case (Some(numerator), Some(denominator)) =>
           QuotientFits(numerator, denominator);
           Some(numerator / denominator)
         case _ => None)
      case _ => None
  }

  /** `u256_pow10`, a loop of wrapping multiplications. */
  method U256Pow10(exp: nat) returns (value: U256)
    ensures value == Wrap(Pow10(exp))
  {
    value := 1;
    for i := 0 to exp
      invariant value == Wrap(Pow10(i))
    {
      WrapTimesTen(Pow10(i));
      value := WrapMul(value, 10);
    }
  }

  lemma {:induction false} WrapTimesTen(n: nat)
    ensures Wrap(10 * Wrap(n)) == Wrap(10 * n)
  {
    if n >= TWO_256 {
      WrapTimesTen(n - TWO_256);
      WrapDrop(10 * n, 10);
    }
  }

  lemma {:induction false} WrapDrop(n: nat, k: nat)
    requires n >= k * TWO_256
    ensures Wrap(n) == Wrap(n - k * TWO_256)
  {
    if k > 0 {
      WrapDrop(n - TWO_256, k - 1);
    }
  }

  /** The price scale is what the loop computes for exponent 18. */
  lemma PriceScaleIsPow10()
    ensures Wrap(Pow10(18)) == PRICE_SCALE
  {
    assert Pow10(6) == 1_000_000;
    assert Pow10(12) == 1_000_000_000_000;
    assert Pow10(18) == 1_000_000_000_000_000_000;
  }

  // ----- The exact form -----

  function AmountOut(x: nat, rIn: nat, rOut: nat): (out: nat)
    requires rIn > 0
  {
    DivIsNat(x * FEE_NUM * rOut, rIn * FEE_DEN + x * FEE_NUM);
    x * FEE_NUM * rOut / (rIn * FEE_DEN + x * FEE_NUM)
  }

  lemma DivIsNat(n: nat, d: nat)
    requires d > 0
    ensures n / d >= 0
  {
  }

  lemma QuotientFits(n: nat, d: nat)
    requires d > 0
    ensures 0 <= n / d <= n
  {
    DivIff(n, d, n / d);
    TimesAtLeastOne(n / d, d);
  }

  lemma TimesAtLeastOne(q: int, d: nat)
    requires d > 0 && q >= 0
    ensures q * d >= q
  {
  }

  /** Floor division as the largest solution of a product inequality. */
  lemma DivIff(n: nat, d: nat, q: nat)
    requires d > 0
    ensures q * d <= n <==> q <= n / d
  {
    var f := n / d;
    assert n == f * d + n % d;
    if q <= f {
      assert q * d <= f * d;
    } else {
      assert q * d >= (f + 1) * d;
    }
  }

  /**
   The pair's fee-adjusted constant-product check (section 3.2.1 of the Uniswap v2 Core whitepaper), on
   the balances after the payout and the inputs inferred from them.
   */
  predicate ProductHolds(b0: nat, b1: nat, in0: nat, in1: nat, r0: nat, r1: nat) {
    (FEE_DEN * b0 - 3 * in0) * (FEE_DEN * b1 - 3 * in1) >= FEE_DEN * FEE_DEN * r0 * r1
  }

  /** Paying out `out` for the input `x` passes it, on a pair that holds just its reserves. */
  predicate PassesFeeCheck(x: nat, rIn: nat, rOut: nat, out: nat) {
    out <= rOut && ProductHolds(rIn + x, rOut - out, x, 0, rIn, rOut)
  }

  /** The computed output is exactly the largest amount that the pair lets out. */
  lemma OutputIsLargestPassing(x: nat, rIn: nat, rOut: nat, out: nat)
    requires rIn > 0 && rOut > 0
    ensures PassesFeeCheck(x, rIn, rOut, out) <==> out <= AmountOut(x, rIn, rOut)
    ensures AmountOut(x, rIn, rOut) < rOut
  {
    OutputProduct(x, rIn, rOut, out);
    OutputProduct(x, rIn, rOut, rOut);
    FeeCheckAlgebra(x, rIn, rOut, out);
  }

  lemma FeeCheckAlgebra(x: nat, rIn: nat, rOut: nat, out: nat)
    requires rIn > 0 && rOut > 0
    ensures rOut * (FEE_DEN * rIn + FEE_NUM * x) > FEE_NUM * x * rOut
    ensures out * (FEE_DEN * rIn + FEE_NUM * x) <= FEE_NUM * x * rOut ==> out <= rOut
    ensures out <= rOut ==>
              (PassesFeeCheck(x, rIn, rOut, out) <==>
               out * (FEE_DEN * rIn + FEE_NUM * x) <= FEE_NUM * x * rOut)
  {
    var d := FEE_DEN * rIn + FEE_NUM * x;
    var k := rIn * rOut;
    assert k > 0;
    assert rOut * d == FEE_DEN * k + FEE_NUM * x * rOut;
    if out > rOut {
      assert out * d >= rOut * d;
    } else {
      assert (rOut - out) * d == rOut * d - out * d;
      assert d * (FEE_DEN * (rOut - out)) == FEE_DEN * ((rOut - out) * d);
      assert FEE_DEN * FEE_DEN * rIn * rOut == FEE_DEN * (FEE_DEN * k);
    }
  }

  /** The output as a product inequality, without division. */
  lemma OutputProduct(x: nat, rIn: nat, rOut: nat, out: nat)
    requires rIn > 0
    ensures out <= AmountOut(x, rIn, rOut) <==> out * (FEE_DEN * rIn + FEE_NUM * x) <= FEE_NUM * x * rOut
  {
    DivIff(x * FEE_NUM * rOut, rIn * FEE_DEN + x * FEE_NUM, out);
  }
}
