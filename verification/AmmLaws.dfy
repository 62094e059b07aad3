/**
 What the swap formula promises: the three forms agree on 112-bit inputs, splitting a swap or
 swapping back never pays, a pool's product never falls, and a pair of pools is profitable in at
 most one direction.
 */
module AmmLaws {
  import opened Words
  import opened Amm

  // ----- Wrapping, checked and exact forms -----

  /** Wherever the contract's checked form does not revert, it is exact and the Rust form equals it. */
  lemma CheckedFormIsExactAndAgrees(x: U256, rIn: U256, rOut: U256)
    requires CheckedAmountOut(x, rIn, rOut).Some?
    ensures rIn > 0 && rOut > 0
    ensures CheckedAmountOut(x, rIn, rOut).value == AmountOut(x, rIn, rOut)
    ensures GetAmountOut(x, rIn, rOut) == Quoted(AmountOut(x, rIn, rOut))
  {
    WrapBelow(x * FEE_NUM);
    WrapBelow(x * FEE_NUM * rOut);
    WrapBelow(rIn * FEE_DEN);
    WrapBelow(rIn * FEE_DEN + x * FEE_NUM);
  }

  lemma WrapBelow(n: nat)
    requires n < TWO_256
    ensures Wrap(n) == n
  {
  }

  /** On nonzero reserves the checked form reverts exactly when one of its two products overflows. */
  lemma CheckedFormRevertsIff(x: U256, rIn: U256, rOut: U256)
    ensures CheckedAmountOut(x, rIn, rOut).Some? <==>
            && rIn > 0 && rOut > 0
            && x * FEE_NUM * rOut < TWO_256
            && rIn * FEE_DEN + x * FEE_NUM < TWO_256
  {
  }

  lemma ProductBelow(a: nat, b: nat, m: nat, n: nat)
    requires a < m && b < n
    ensures a * b < m * n
  {
    MulMono(b, n, a);
    MulMono(a + 1, m, n);
    assert (a + 1) * n == a * n + n;
  }

  /** With 112-bit reserves and input no intermediate reaches 2^256, so the three forms coincide. */
  lemma FormsCoincide(x: nat, rIn: nat, rOut: nat)
    requires x < TWO_112 && 0 < rIn < TWO_112 && 0 < rOut < TWO_112
    ensures CheckedAmountOut(x, rIn, rOut) == Some(AmountOut(x, rIn, rOut))
    ensures GetAmountOut(x, rIn, rOut) == Quoted(AmountOut(x, rIn, rOut))
    ensures AmountOut(x, rIn, rOut) < rOut
  {
    ProductBelow(x, rOut, TWO_112, TWO_112);
    assert x * FEE_NUM * rOut == FEE_NUM * (x * rOut);
    CheckedFormRevertsIff(x, rIn, rOut);
    CheckedFormIsExactAndAgrees(x, rIn, rOut);
    OutputIsLargestPassing(x, rIn, rOut, 0);
  }

  /** Profit of the exact two-hop trade, possibly negative. */
  function ExactProfit(x: nat, aIn: nat, aOut: nat, bIn: nat, bOut: nat): int
    requires aIn > 0 && bIn > 0
  {
    AmountOut(AmountOut(x, aIn, aOut), bIn, bOut) - x
  }

  /** Both hops at once: the Rust profit is the exact one, reported only when positive. */
  lemma ProfitIsExact(x: nat, aIn: nat, aOut: nat, bIn: nat, bOut: nat)
    requires x < TWO_112
    requires 0 < aIn < TWO_112 && 0 < aOut < TWO_112 && 0 < bIn < TWO_112 && 0 < bOut < TWO_112
    ensures match CalculateProfit(x, aIn, aOut, bIn, bOut)
            case Quoted(p) => p == ExactProfit(x, aIn, aOut, bIn, bOut) && p > 0
            case NoQuote => ExactProfit(x, aIn, aOut, bIn, bOut) <= 0
            case Panic => false
  {
    FormsCoincide(x, aIn, aOut);
    FormsCoincide(AmountOut(x, aIn, aOut), bIn, bOut);
  }

  lemma {:induction false} WrapSum(a: nat, b: nat)
    ensures Wrap(Wrap(a) + Wrap(b)) == Wrap(a + b)
    decreases a + b
  {
    if a >= TWO_256 {
      WrapSum(a - TWO_256, b);
    } else if b >= TWO_256 {
      WrapSum(a, b - TWO_256);
    }
  }

  lemma {:induction false} WrapProduct(a: nat, b: nat)
    ensures Wrap(Wrap(a) * b) == Wrap(a * b)
  {
    if a >= TWO_256 {
      WrapProduct(a - TWO_256, b);
      Distribute(a - TWO_256, TWO_256, b);
      MulMono(0, a - TWO_256, b);
      WrapDrop(a * b, b);
    }
  }

  /** The true denominator of a quote is a multiple of 2^256. */
  predicate DenominatorLost(x: nat, rIn: nat) {
    (rIn * FEE_DEN + x * FEE_NUM) % TWO_256 == 0
  }

  /** Numerator and denominator each reduced modulo 2^256 before the division. */
  function ModularOut(x: nat, rIn: nat, rOut: nat): (out: U256)
    requires !DenominatorLost(x, rIn)
  {
    QuotientFits(x * FEE_NUM * rOut % TWO_256, (rIn * FEE_DEN + x * FEE_NUM) % TWO_256);
    (x * FEE_NUM * rOut % TWO_256) / ((rIn * FEE_DEN + x * FEE_NUM) % TWO_256)
  }

  /** The Rust form on all 256-bit inputs: when it panics, and what it quotes otherwise. */
  lemma QuoteIsModular(x: U256, rIn: U256, rOut: U256)
    ensures GetAmountOut(x, rIn, rOut) ==
            if rIn == 0 || rOut == 0 then NoQuote
            else if DenominatorLost(x, rIn) then Panic
            else Quoted(ModularOut(x, rIn, rOut))
  {
    WrapSum(rIn * FEE_DEN, x * FEE_NUM);
    WrapIsModulo(rIn * FEE_DEN + x * FEE_NUM);
    WrapProduct(x * FEE_NUM, rOut);
    WrapIsModulo(x * FEE_NUM * rOut);
  }

  /** When the two-hop profit panics: at the first denominator, or at the second for the amount the first hop quotes. */
  predicate RoundLosesDenominator(x: nat, aIn: nat, aOut: nat, bIn: nat) {
    DenominatorLost(x, aIn) || DenominatorLost(ModularOut(x, aIn, aOut), bIn)
  }

  lemma ProfitPanicsIff(x: U256, aIn: U256, aOut: U256, bIn: U256, bOut: U256)
    ensures CalculateProfit(x, aIn, aOut, bIn, bOut) == Panic <==>
            && aIn > 0 && aOut > 0
            && (DenominatorLost(x, aIn) || (bIn > 0 && bOut > 0 && RoundLosesDenominator(x, aIn, aOut, bIn)))
  {
    QuoteIsModular(x, aIn, aOut);
    if aIn > 0 && aOut > 0 && !DenominatorLost(x, aIn) {
      QuoteIsModular(ModularOut(x, aIn, aOut), bIn, bOut);
    }
  }

  /** A reserve on which one ether loses its denominator. */
  const LOST_RESERVE: U256 := TWO_256 / 8 - 997_000_000_000_000_000

  /** Outside 112 bits the wrapping form can panic, on the scan's own input, where the contract reverts. */
  lemma WrappedDenominatorPanics()
    ensures GetAmountOut(ONE_ETHER, LOST_RESERVE, 1) == Panic
    ensures CheckedAmountOut(ONE_ETHER, LOST_RESERVE, 1) == None
  {
    QuoteIsModular(ONE_ETHER, LOST_RESERVE, 1);
    CheckedFormRevertsIff(ONE_ETHER, LOST_RESERVE, 1);
  }

  /** Spot prices on all 256-bit reserves. */
  lemma SpotPriceIsModular(rIn: U256, rOut: U256)
    ensures rIn == 0 ==> GetSpotPrice(rIn, rOut) == NoQuote
    ensures rIn > 0 ==> GetSpotPrice(rIn, rOut).Quoted?
    ensures rIn > 0 ==> GetSpotPrice(rIn, rOut).amount == rOut * 1_000_000_000_000_000_000 % TWO_256 / rIn
  {
    WrapIsModulo(rOut * PRICE_SCALE);
  }

  /** Spot prices of 112-bit reserves do not wrap either. */
  lemma SpotPriceIsExact(rIn: nat, rOut: nat)
    requires 0 < rIn < TWO_112 && rOut < TWO_112
    ensures GetSpotPrice(rIn, rOut) == Quoted(rOut * PRICE_SCALE / rIn)
    ensures rOut * PRICE_SCALE / rIn < TWO_112 * PRICE_SCALE
  {
    assert WrapMul(rOut, PRICE_SCALE) == rOut * PRICE_SCALE;
    QuotientFits(rOut * PRICE_SCALE, rIn);
  }

  // ----- One pool -----

  /** What stays in the pool, scaled: the fee-adjusted product bound. */
  lemma Remaining(x: nat, rIn: nat, rOut: nat)
    requires rIn > 0
    ensures AmountOut(x, rIn, rOut) <= rOut
    ensures (rOut - AmountOut(x, rIn, rOut)) * (FEE_DEN * rIn + FEE_NUM * x) >= FEE_DEN * rIn * rOut
  {
    var out := AmountOut(x, rIn, rOut);
    OutputProduct(x, rIn, rOut, out);
    RemainingAlgebra(x, rIn, rOut, out);
  }

  lemma RemainingAlgebra(x: nat, rIn: nat, rOut: nat, out: nat)
    requires rIn > 0
    requires out * (FEE_DEN * rIn + FEE_NUM * x) <= FEE_NUM * x * rOut
    ensures out <= rOut
    ensures (rOut - out) * (FEE_DEN * rIn + FEE_NUM * x) >= FEE_DEN * rIn * rOut
  {
    var d: nat := FEE_DEN * rIn + FEE_NUM * x;
    assert rOut * d == FEE_DEN * rIn * rOut + FEE_NUM * x * rOut;
    Distribute(rOut, 1, d);
    if out > rOut {
      MulMono(rOut + 1, out, d);
      assert false;
    }
    assert (rOut - out) * d == rOut * d - out * d;
  }

  /** Two swaps in the same direction yield at most what one swap of the sum yields. */
  lemma SplittingTwoNeverPays(x: nat, y: nat, rIn: nat, rOut: nat)
    requires rIn > 0
    ensures var o1 := AmountOut(x, rIn, rOut);
            o1 <= rOut && o1 + AmountOut(y, rIn + x, rOut - o1) <= AmountOut(x + y, rIn, rOut)
  {
    var o1 := AmountOut(x, rIn, rOut);
    Remaining(x, rIn, rOut);
    var o2 := AmountOut(y, rIn + x, rOut - o1);
    Remaining(y, rIn + x, rOut - o1);
    SplitAlgebra(x, y, rIn, rOut, o1, o2);
    OutputProduct(x + y, rIn, rOut, o1 + o2);
  }

  lemma SplitAlgebra(x: nat, y: nat, rIn: nat, rOut: nat, o1: nat, o2: nat)
    requires rIn > 0 && o1 + o2 <= rOut
    requires (rOut - o1) * (FEE_DEN * rIn + FEE_NUM * x) >= FEE_DEN * rIn * rOut
    requires (rOut - o1 - o2) * (FEE_DEN * (rIn + x) + FEE_NUM * y) >= FEE_DEN * (rIn + x) * (rOut - o1)
    ensures (o1 + o2) * (FEE_DEN * rIn + FEE_NUM * (x + y)) <= FEE_NUM * (x + y) * rOut
  {
    var d := FEE_DEN * rIn + FEE_NUM * x;
    var e := FEE_DEN * (rIn + x) + FEE_NUM * y;
    var f := FEE_DEN * rIn + FEE_NUM * (x + y);
    var left := rOut - o1 - o2;
    SplitProduct(left, rOut - o1, d, e, f, rIn, rOut, x, y);
    assert (o1 + o2) * f == rOut * f - left * f by { Distribute(o1 + o2, left, f); }
    Distribute(FEE_DEN * rIn, FEE_NUM * (x + y), rOut);
  }

  lemma Distribute(a: int, b: int, c: int)
    ensures (a + b) * c == a * c + b * c
  {
  }

  /** The inequality behind splitting: `left * f >= 1000 rIn rOut`. */
  lemma SplitProduct(left: nat, s: nat, d: nat, e: nat, f: nat, rIn: nat, rOut: nat, x: nat, y: nat)
    requires rIn > 0
    requires d == FEE_DEN * rIn + FEE_NUM * x
    requires e == d + 3 * x + FEE_NUM * y && f == d + FEE_NUM * y
    requires s * d >= FEE_DEN * rIn * rOut
    requires left * e >= FEE_DEN * (rIn + x) * s
    ensures left * f >= FEE_DEN * rIn * rOut
  {
    var g := d + 3 * x;
    assert g == FEE_DEN * (rIn + x);
    CrossTerms(d, 3 * x, FEE_NUM * y);
    ChainProducts(left, s, d, e, f, g, FEE_DEN * rIn * rOut);
  }

  lemma CrossTerms(d: nat, p: nat, q: nat)
    ensures (d + q) * (d + p) >= (d + p + q) * d
  {
    assert (d + q) * (d + p) == (d + p + q) * d + q * p;
  }

  /** `left e >= g s`, `s d >= k` and `f g >= e d` give `left f >= k`. */
  lemma ChainProducts(left: nat, s: nat, d: nat, e: nat, f: nat, g: nat, k: nat)
    requires d > 0 && e > 0
    requires left * e >= g * s && s * d >= k && f * g >= e * d
    ensures left * f >= k
  {
    MulMono(g * s, left * e, f * d);
    MulMono(k, s * d, f * g);
    MulMono(e * d, f * g, k);
    Regroup(left, e, f, d);
    Regroup(g, s, f, d);
    assert g * f == f * g;
    assert (e * d) * k <= (e * d) * (left * f);
    assert e * d > 0;
    MulCancel(k, left * f, e * d);
  }

  lemma Regroup(a: int, b: int, c: int, d: int)
    ensures (a * b) * (c * d) == (b * d) * (a * c)
  {
  }

  lemma MulMono(a: int, b: int, c: nat)
    requires a <= b
    ensures a * c <= b * c && c * a <= c * b
  {
  }

  lemma MulCancel(a: int, b: int, c: nat)
    requires c > 0 && c * a <= c * b
    ensures a <= b
  {
    if a > b {
      MulMono(b + 1, a, c);
      Distribute(b, 1, c);
      assert false;
    }
  }

  function Sum(xs: seq<nat>): nat {
    if xs == [] then 0 else xs[0] + Sum(xs[1..])
  }

  /** Total output of successive same-direction swaps, reserves updated after each. */
  function SwapAll(xs: seq<nat>, rIn: nat, rOut: nat): (total: nat)
    requires rIn > 0
  {
    if xs == [] then 0
    else
      Remaining(xs[0], rIn, rOut);
      var out := AmountOut(xs[0], rIn, rOut);
      out + SwapAll(xs[1..], rIn + xs[0], rOut - out)
  }

  /** Any list of successive swaps yields at most one swap of the summed input. */
  lemma {:induction false} SplittingNeverPays(xs: seq<nat>, rIn: nat, rOut: nat)
    requires rIn > 0
    ensures SwapAll(xs, rIn, rOut) <= AmountOut(Sum(xs), rIn, rOut)
  {
    if xs != [] {
      Remaining(xs[0], rIn, rOut);
      SplittingNeverPays(xs[1..], rIn + xs[0], rOut - AmountOut(xs[0], rIn, rOut));
      SplittingTwoNeverPays(xs[0], Sum(xs[1..]), rIn, rOut);
    }
  }

  /** Swapping out and straight back on the same pool returns strictly less than was put in. */
  lemma RoundTripLoses(x: nat, rIn: nat, rOut: nat)
    requires rIn > 0 && rOut > 0 && x > 0
    ensures var out := AmountOut(x, rIn, rOut);
            out < rOut && AmountOut(out, rOut - out, rIn + x) < x
  {
    var out := AmountOut(x, rIn, rOut);
    OutputIsLargestPassing(x, rIn, rOut, out);
    OutputProduct(x, rIn, rOut, out);
    RoundTripAlgebra(x, rIn, rOut - out, out);
    OutputProduct(out, rOut - out, rIn + x, x);
  }

  lemma RoundTripAlgebra(x: nat, rIn: nat, s: nat, out: nat)
    requires x > 0 && s > 0
    requires out * (FEE_DEN * rIn + FEE_NUM * x) <= FEE_NUM * x * (s + out)
    ensures x * (FEE_DEN * s + FEE_NUM * out) > FEE_NUM * out * (rIn + x)
  {
    var xs, ro, xo := x * s, rIn * out, x * out;
    assert out * (FEE_DEN * rIn + FEE_NUM * x) == FEE_DEN * ro + FEE_NUM * xo;
    assert FEE_NUM * x * (s + out) == FEE_NUM * xs + FEE_NUM * xo;
    assert x * (FEE_DEN * s + FEE_NUM * out) == FEE_DEN * xs + FEE_NUM * xo;
    assert FEE_NUM * out * (rIn + x) == FEE_NUM * ro + FEE_NUM * xo;
    assert xs > 0;
  }

  /** A swap in either direction on a pool. */
  datatype Swap = Forward(amount: nat) | Backward(amount: nat)

  datatype Reserves = Reserves(r0: nat, r1: nat)

  function After(r: Reserves, s: Swap): (r': Reserves)
    requires r.r0 > 0 && r.r1 > 0
    ensures r'.r0 > 0 && r'.r1 > 0
  {
    match s
    case Forward(x) =>
      OutputIsLargestPassing(x, r.r0, r.r1, 0);
      Reserves(r.r0 + x, r.r1 - AmountOut(x, r.r0, r.r1))
    case Backward(x) =>
      OutputIsLargestPassing(x, r.r1, r.r0, 0);
      Reserves(r.r0 - AmountOut(x, r.r1, r.r0), r.r1 + x)
  }

  function AfterAll(r: Reserves, swaps: seq<Swap>): (r': Reserves)
    requires r.r0 > 0 && r.r1 > 0
    ensures r'.r0 > 0 && r'.r1 > 0
    decreases |swaps|
  {
    if swaps == [] then r else AfterAll(After(r, swaps[0]), swaps[1..])
  }

  function Forwards(xs: seq<nat>): (swaps: seq<Swap>)
    ensures |swaps| == |xs|
  {
    seq(|xs|, i requires 0 <= i < |xs| => Forward(xs[i]))
  }

  /** What a list of swaps yields is what the pool loses, and the pool gains what was put in. */
  lemma {:induction false} SwapAllDrains(xs: seq<nat>, rIn: nat, rOut: nat)
    requires rIn > 0 && rOut > 0
    ensures var r := AfterAll(Reserves(rIn, rOut), Forwards(xs));
            SwapAll(xs, rIn, rOut) == rOut - r.r1 && r.r0 == rIn + Sum(xs)
  {
    if xs != [] {
      OutputIsLargestPassing(xs[0], rIn, rOut, 0);
      assert Forwards(xs)[0] == Forward(xs[0]) && Forwards(xs)[1..] == Forwards(xs[1..]);
      SwapAllDrains(xs[1..], rIn + xs[0], rOut - AmountOut(xs[0], rIn, rOut));
    }
  }

  lemma SwapGrowsProduct(x: nat, rIn: nat, rOut: nat)
    requires rIn > 0
    ensures AmountOut(x, rIn, rOut) <= rOut
    ensures (rIn + x) * (rOut - AmountOut(x, rIn, rOut)) >= rIn * rOut
  {
    Remaining(x, rIn, rOut);
    GrowthAlgebra(x, rIn, rOut, rOut - AmountOut(x, rIn, rOut));
  }

  lemma GrowthAlgebra(x: nat, rIn: nat, rOut: nat, s: nat)
    requires s * (FEE_DEN * rIn + FEE_NUM * x) >= FEE_DEN * rIn * rOut
    ensures (rIn + x) * s >= rIn * rOut
  {
    var rs, xs := rIn * s, x * s;
    assert s * (FEE_DEN * rIn + FEE_NUM * x) == FEE_DEN * rs + FEE_NUM * xs;
    assert FEE_DEN * rIn * rOut == FEE_DEN * (rIn * rOut);
    assert (rIn + x) * s == rs + xs;
  }

  /** Over any run of swaps, in any directions, the reserve product never decreases. */
  lemma {:induction false} ProductNeverFalls(r: Reserves, swaps: seq<Swap>)
    requires r.r0 > 0 && r.r1 > 0
    ensures var r' := AfterAll(r, swaps); r'.r0 * r'.r1 >= r.r0 * r.r1
    decreases |swaps|
  {
    if swaps != [] {
      OneSwapGrowsProduct(r, swaps[0]);
      ProductNeverFalls(After(r, swaps[0]), swaps[1..]);
    }
  }

  lemma OneSwapGrowsProduct(r: Reserves, s: Swap)
    requires r.r0 > 0 && r.r1 > 0
    ensures After(r, s).r0 * After(r, s).r1 >= r.r0 * r.r1
  {
    match s {
      case Forward(x) => SwapGrowsProduct(x, r.r0, r.r1);
      case Backward(x) => SwapGrowsProduct(x, r.r1, r.r0);
    }
  }

  /** So no run of swaps on one pool takes out one token without leaving more of the other. */
  lemma NoArbitrageWithinOnePool(r: Reserves, swaps: seq<Swap>)
    requires r.r0 > 0 && r.r1 > 0
    ensures var r' := AfterAll(r, swaps); r'.r0 <= r.r0 && r'.r1 <= r.r1 ==> r' == r
  {
    ProductNeverFalls(r, swaps);
    var r' := AfterAll(r, swaps);
    if r'.r0 <= r.r0 && r'.r1 <= r.r1 {
      SmallerBoxEqual(r'.r0, r'.r1, r.r0, r.r1);
    }
  }

  lemma SmallerBoxEqual(a: nat, b: nat, m: nat, n: nat)
    requires 0 < a <= m && 0 < b <= n && a * b >= m * n
    ensures a == m && b == n
  {
    MulMono(b, n, a);
    MulMono(a, m, n);
    if a < m { MulMono(a + 1, m, n); }
    if b < n { MulMono(b + 1, n, a); }
  }

  // ----- Two pools -----

  /** One hop loses the fee: `out / rOut < 997 x / (1000 rIn)`, in products. */
  lemma HopBound(x: nat, rIn: nat, rOut: nat)
    requires rIn > 0
    ensures FEE_DEN * (AmountOut(x, rIn, rOut) * rIn) <= FEE_NUM * (x * rOut)
  {
    var out := AmountOut(x, rIn, rOut);
    OutputProduct(x, rIn, rOut, out);
    HopAlgebra(x, rIn, rOut, out);
  }

  lemma HopAlgebra(x: nat, rIn: nat, rOut: nat, out: nat)
    requires out * (FEE_DEN * rIn + FEE_NUM * x) <= FEE_NUM * x * rOut
    ensures FEE_DEN * (out * rIn) <= FEE_NUM * (x * rOut)
  {
    assert out * (FEE_DEN * rIn + FEE_NUM * x) == FEE_DEN * (out * rIn) + FEE_NUM * (out * x);
    assert FEE_NUM * x * rOut == FEE_NUM * (x * rOut);
  }

  /** A profitable round forces the price gap to exceed both fees. */
  lemma ProfitForcesPriceGap(x: nat, aIn: nat, aOut: nat, bIn: nat, bOut: nat)
    requires aIn > 0 && bIn > 0 && ExactProfit(x, aIn, aOut, bIn, bOut) > 0
    ensures FEE_DEN * FEE_DEN * (aIn * bIn) < FEE_NUM * FEE_NUM * (aOut * bOut)
  {
    var mid := AmountOut(x, aIn, aOut);
    var final := AmountOut(mid, bIn, bOut);
    HopBound(x, aIn, aOut);
    HopBound(mid, bIn, bOut);
    GapAlgebra(x, mid, final, aIn, aOut, bIn, bOut);
  }

  /** `10^6 x aIn bIn < 10^6 final aIn bIn <= 997000 mid aIn bOut <= 997^2 x aOut bOut`. */
  lemma GapAlgebra(x: nat, mid: nat, final: nat, aIn: nat, aOut: nat, bIn: nat, bOut: nat)
    requires aIn > 0 && bIn > 0 && final > x
    requires FEE_DEN * (mid * aIn) <= FEE_NUM * (x * aOut)
    requires FEE_DEN * (final * bIn) <= FEE_NUM * (mid * bOut)
    ensures FEE_DEN * FEE_DEN * (aIn * bIn) < FEE_NUM * FEE_NUM * (aOut * bOut)
  {
    var l := aIn * bIn;
    var r := aOut * bOut;
    Scale(FEE_DEN, final * bIn, FEE_NUM, mid * bOut, aIn);
    Scale(FEE_DEN, mid * aIn, FEE_NUM, x * aOut, bOut);
    Assoc(final, bIn, aIn);
    Assoc(mid, bOut, aIn);
    Assoc(mid, aIn, bOut);
    Assoc(x, aOut, bOut);
    MulMono(x + 1, final, l);
    assert (x + 1) * l == x * l + l;
    assert l > 0;
    assert FEE_DEN * FEE_DEN * (x * l) < FEE_NUM * FEE_NUM * (x * r);
    if FEE_DEN * FEE_DEN * l >= FEE_NUM * FEE_NUM * r {
      Scale(FEE_NUM * FEE_NUM, r, FEE_DEN * FEE_DEN, l, x);
      assert false;
    }
  }

  lemma Scale(p: nat, a: nat, q: nat, b: nat, c: nat)
    requires p * a <= q * b
    ensures p * (a * c) <= q * (b * c) && p * (c * a) <= q * (c * b)
  {
    MulMono(p * a, q * b, c);
    Assoc(p, a, c);
    Assoc(q, b, c);
  }

  lemma Assoc(a: nat, b: nat, c: nat)
    ensures (a * b) * c == a * (b * c) == a * (c * b)
  {
  }

  /** The two directions of a pair of pools are never both profitable, whatever the inputs. */
  lemma NeverBothProfitable(x: nat, y: nat, aIn: nat, aOut: nat, bIn: nat, bOut: nat)
    requires aIn > 0 && aOut > 0 && bIn > 0 && bOut > 0
    ensures !(ExactProfit(x, aIn, aOut, bIn, bOut) > 0 && ExactProfit(y, bOut, bIn, aOut, aIn) > 0)
  {
    if ExactProfit(x, aIn, aOut, bIn, bOut) > 0 && ExactProfit(y, bOut, bIn, aOut, aIn) > 0 {
      ProfitForcesPriceGap(x, aIn, aOut, bIn, bOut);
      ProfitForcesPriceGap(y, bOut, bIn, aOut, aIn);
      assert false;
    }
  }
}
