/**
 The scan: for each configured pair of pools, the one profitable direction, if any, of a one-ether
 round trip through them. Dollar amounts are reals.
 */
module Scanner {
  import opened Words
  import opened Amm
  import opened AmmLaws
  import opened Sync

  const WETH: Address := 0xC02aaA39b223FE8D0A0e5C4F27eAD9083C756Cc2
  const USDC: Address := 0xA0b86991c6218b36c1d19D4a2e9Eb0cE3606eB48
  const DAI: Address := 0x6B175474E89094C44Da98b954EedeAC495271d0F
  const I64_MAX: nat := 0x7fff_ffff_ffff_ffff

  datatype Opportunity = Opportunity(
    poolA: Address, poolB: Address, tokenIn: Address, tokenOut: Address, inputAmount: U256,
    estimatedProfitUsd: real, gasEstimateUsd: real, spreadBps: nat)

  // ----- The code -----

  /** `stable_token_out`. */
  function StableTokenOut(a0: Address, a1: Address, b0: Address, b1: Address): Option<Address> {
    if (a0, a1) != (b0, b1) then None
    else if a0 == 0 || a1 == 0 then None
    else if a0 != WETH && a1 != WETH then None
    else if a0 == USDC || a1 == USDC then Some(USDC)
    else if a0 == DAI || a1 == DAI then Some(DAI)
    else None
  }

  /** `reserves_for_swap`. */
  function ReservesForSwap(pool: Pool, tokenIn: Address, tokenOut: Address): Option<(U256, U256)> {
    if pool.token0 == tokenIn && pool.token1 == tokenOut then Some((pool.reserve0, pool.reserve1))
    else if pool.token1 == tokenIn && pool.token0 == tokenOut then Some((pool.reserve1, pool.reserve0))
    else None
  }

  /** `spread_bps`, saturating at the largest 64-bit signed integer. */
  function SpreadBps(priceA: U256, priceB: U256): nat {
    var min := if priceA < priceB then priceA else priceB;
    if min == 0 then 0
    else
      var diff := if priceA > priceB then priceA - priceB else priceB - priceA;
      QuotientFits(WrapMul(diff, 10_000), min);
      var bps := WrapMul(diff, 10_000) / min;
      if bps <= I64_MAX then bps else I64_MAX
  }

  /** `wei_to_eth_f64`, over the reals. */
  function WeiToEth(wei: nat): (eth: real)
    ensures eth * ONE_ETHER as real == wei as real
  {
    wei as real / 1_000_000_000_000_000_000.0
  }

  function ProfitUsd(profitWei: nat, ethPriceUsd: real): (usd: real)
    ensures usd * 1_000_000_000_000_000_000.0 == profitWei as real * ethPriceUsd
  {
    DollarsScale(WeiToEth(profitWei), profitWei as real, ethPriceUsd);
    WeiToEth(profitWei) * ethPriceUsd
  }

  lemma DollarsScale(eth: real, wei: real, ethPriceUsd: real)
    requires eth * 1_000_000_000_000_000_000.0 == wei
    ensures eth * ethPriceUsd * 1_000_000_000_000_000_000.0 == wei * ethPriceUsd
  {
  }

  /** Reserves as a pair reports them: 112 bits. */
  predicate Fits(pool: Pool) {
    pool.reserve0 < TWO_112 && pool.reserve1 < TWO_112
  }

  /** The second half of `build_opportunity`: what is reported for a quoted profit. */
  function Assemble(poolA: Address, poolB: Address, tokenOut: Address, amountIn: U256, ethPriceUsd: real,
                    profit: Quote, priceA: Quote, priceB: Quote): Option<Opportunity>
  {
    if !profit.Quoted? || profit.amount == 0 then None
    else if ProfitUsd(profit.amount, ethPriceUsd) <= 0.0 then None
    else if !priceA.Quoted? || !priceB.Quoted? then None
    else Some(Opportunity(poolA, poolB, WETH, tokenOut, amountIn, ProfitUsd(profit.amount, ethPriceUsd), 0.0,
                          SpreadBps(priceA.amount, priceB.amount)))
  }

  /** A quote that panics takes the whole scan down. */
  datatype Outcome = Crash | Found(best: Option<Opportunity>)

  /** `build_opportunity`. */
  function BuildOpportunity(poolA: Pool, poolB: Pool, tokenOut: Address, amountIn: U256, ethPriceUsd: real): Outcome {
    match (ReservesForSwap(poolA, WETH, tokenOut), ReservesForSwap(poolB, tokenOut, WETH))
    case (Some((aIn, aOut)), Some((bIn, bOut))) =>
      if aIn == 0 || aOut == 0 || bIn == 0 || bOut == 0 then Found(None)
      else if CalculateProfit(amountIn, aIn, aOut, bIn, bOut) == Panic then Crash
      else
        Found(Assemble(poolA.poolAddress, poolB.poolAddress, tokenOut, amountIn, ethPriceUsd,
                       CalculateProfit(amountIn, aIn, aOut, bIn, bOut),
                       GetSpotPrice(aIn, aOut), GetSpotPrice(bOut, bIn)))
    case _ => Found(None)
  }

  /** The final choice of `scan_pairs` between the two directions. */
  function Better(ab: Option<Opportunity>, ba: Option<Opportunity>): Option<Opportunity> {
    match (ab, ba)
    case (Some(a), Some(b)) => if a.estimatedProfitUsd >= b.estimatedProfitUsd then Some(a) else Some(b)
    case (Some(a), None) => Some(a)
    case (None, Some(b)) => Some(b)
    case (None, None) => None
  }

  /** The higher profit wins, the first direction on a tie, and one opportunity beats none. */
  lemma BetterIsHigher(ab: Option<Opportunity>, ba: Option<Opportunity>)
    ensures Better(ab, ba).None? <==> ab.None? && ba.None?
    ensures Better(ab, ba).Some? ==> Better(ab, ba) == ab || Better(ab, ba) == ba
    ensures ab.Some? && Better(ab, ba) != ab ==> ba.Some? && ba.value.estimatedProfitUsd > ab.value.estimatedProfitUsd
    ensures ba.Some? && Better(ab, ba) != ba ==> ab.Some? && ab.value.estimatedProfitUsd >= ba.value.estimatedProfitUsd
  {
  }

  ghost predicate StoreFits(store: map<Address, Pool>) {
    forall a :: a in store ==> Fits(store[a])
  }

  /** `scan_pairs`; `None` is a panic. */
  method ScanPairs(store: map<Address, Pool>, poolPairs: seq<(Address, Address)>, ethPriceUsd: real)
    returns (result: Option<seq<Opportunity>>)
    ensures result == ScanOutcome(store, poolPairs, ethPriceUsd)
    ensures StoreFits(store) ==> result == Some(Scan(store, poolPairs, ethPriceUsd))
  {
    var out := [];
    for i := 0 to |poolPairs|
      invariant ScanOutcome(store, poolPairs[..i], ethPriceUsd) == Some(out)
    {
      assert poolPairs[..i + 1][..i] == poolPairs[..i];
      var (a, b) := poolPairs[i];
      if a !in store || b !in store {
        continue;
      }
      var poolA, poolB := store[a], store[b];
      var route := StableTokenOut(poolA.token0, poolA.token1, poolB.token0, poolB.token1);
      if route.None? {
        continue;
      }
      var tokenOut := route.value;
      var ab := BuildOpportunity(poolA, poolB, tokenOut, ONE_ETHER, ethPriceUsd);
      var ba := BuildOpportunity(poolB, poolA, tokenOut, ONE_ETHER, ethPriceUsd);
      if ab.Crash? || ba.Crash? {
        PairCrashesIff(store, poolPairs[i], ethPriceUsd);
        assert poolPairs[i] in poolPairs && PairCrashes(store, poolPairs[i]);
        ScanCrashesIff(store, poolPairs, ethPriceUsd);
        if StoreFits(store) {
          ScanIsExact(store, poolPairs, ethPriceUsd);
        }
        return None;
      }
      var best := Better(ab.best, ba.best);
      if best.Some? {
        out := out + [best.value];
      }
    }
    assert poolPairs[..|poolPairs|] == poolPairs;
    if StoreFits(store) {
      ScanIsExact(store, poolPairs, ethPriceUsd);
    }
    return Some(out);
  }

  /** What one pair of pools comes to in the code. */
  function PairOutcome(store: map<Address, Pool>, pair: (Address, Address), ethPriceUsd: real): Outcome {
    if pair.0 !in store || pair.1 !in store then Found(None)
    else
      var a, b := store[pair.0], store[pair.1];
      match StableTokenOut(a.token0, a.token1, b.token0, b.token1)
      case None => Found(None)
      case Some(tokenOut) =>
        var ab := BuildOpportunity(a, b, tokenOut, ONE_ETHER, ethPriceUsd);
        var ba := BuildOpportunity(b, a, tokenOut, ONE_ETHER, ethPriceUsd);
        if ab.Crash? || ba.Crash? then Crash else Found(Better(ab.best, ba.best))
  }

  function ScanOutcome(store: map<Address, Pool>, poolPairs: seq<(Address, Address)>, ethPriceUsd: real)
    : Option<seq<Opportunity>>
  {
    if poolPairs == [] then Some([])
    else
      var before := ScanOutcome(store, poolPairs[..|poolPairs| - 1], ethPriceUsd);
      var last := PairOutcome(store, poolPairs[|poolPairs| - 1], ethPriceUsd);
      if before.None? || last.Crash? then None
      else if last.best.Some? then Some(before.value + [last.best.value])
      else before
  }

  // ----- What the scan should report -----

  /** Two pools of the same two tokens, one of them wrapped ether and the other `stable`. */
  predicate SharedRoute(a: Pool, b: Pool, stable: Address) {
    && a.token0 == b.token0 && a.token1 == b.token1
    && (stable == USDC || stable == DAI)
    && ((a.token0 == WETH && a.token1 == stable) || (a.token0 == stable && a.token1 == WETH))
  }

  function WethReserve(p: Pool): nat {
    if p.token0 == WETH then p.reserve0 else p.reserve1
  }

  function StableReserve(p: Pool): nat {
    if p.token0 == WETH then p.reserve1 else p.reserve0
  }

  predicate Live(p: Pool) {
    p.reserve0 > 0 && p.reserve1 > 0
  }

  /** Exact profit, in wei, of buying on `a` and selling on `b` with one ether. */
  function RouteProfit(a: Pool, b: Pool): int
    requires Live(a) && Live(b)
  {
    ExactProfit(ONE_ETHER, WethReserve(a), StableReserve(a), StableReserve(b), WethReserve(b))
  }

  predicate Profitable(a: Pool, b: Pool) {
    Live(a) && Live(b) && RouteProfit(a, b) > 0
  }

  /** Price of wrapped ether in the stable token, scaled by 10^18 and floored. */
  function Price(p: Pool): nat
    requires WethReserve(p) > 0
  {
    DivIsNat(StableReserve(p) * PRICE_SCALE, WethReserve(p));
    StableReserve(p) * PRICE_SCALE / WethReserve(p)
  }

  /** Price gap in basis points of the lower price, in exact arithmetic. */
  function ExactSpread(high: nat, low: nat): nat
    requires high >= low
  {
    if low == 0 then 0
    else
      DivIsNat((high - low) * 10_000, low);
      if (high - low) * 10_000 / low <= I64_MAX then (high - low) * 10_000 / low else I64_MAX
  }

  /** An opportunity as recorded: the profit in dollars and the spread of the two prices. */
  function Report(poolA: Address, poolB: Address, stable: Address, profitWei: nat, high: nat, low: nat,
                  ethPriceUsd: real): Opportunity
    requires high >= low
  {
    Opportunity(poolA, poolB, WETH, stable, ONE_ETHER, ProfitUsd(profitWei, ethPriceUsd), 0.0, ExactSpread(high, low))
  }

  function Reported(a: Pool, b: Pool, stable: Address, ethPriceUsd: real): Opportunity
    requires Profitable(a, b)
  {
    ProfitableIsDearer(a, b);
    Report(a.poolAddress, b.poolAddress, stable, RouteProfit(a, b), Price(a), Price(b), ethPriceUsd)
  }

  function Route(a: Pool, b: Pool): Option<Address> {
    if SharedRoute(a, b, USDC) then Some(USDC) else if SharedRoute(a, b, DAI) then Some(DAI) else None
  }

  /** What one pair of pools contributes: the profitable direction, if there is one. */
  function ScanOne(store: map<Address, Pool>, pair: (Address, Address), ethPriceUsd: real): seq<Opportunity> {
    if ethPriceUsd <= 0.0 || pair.0 !in store || pair.1 !in store then []
    else
      var a, b := store[pair.0], store[pair.1];
      match Route(a, b)
      case None => []
      case Some(stable) =>
        if Profitable(a, b) then [Reported(a, b, stable, ethPriceUsd)]
        else if Profitable(b, a) then [Reported(b, a, stable, ethPriceUsd)]
        else []
  }

  /** The scan is the list of contributions, in the order of the pairs. */
  function Scan(store: map<Address, Pool>, poolPairs: seq<(Address, Address)>, ethPriceUsd: real): seq<Opportunity> {
    if poolPairs == [] then []
    else
      Scan(store, poolPairs[..|poolPairs| - 1], ethPriceUsd) +
      ScanOne(store, poolPairs[|poolPairs| - 1], ethPriceUsd)
  }

  // ----- Why they agree -----

  /** The token the code picks is the stable side of a shared route, and it finds one whenever there is one. */
  lemma RouteIsShared(a: Pool, b: Pool)
    ensures StableTokenOut(a.token0, a.token1, b.token0, b.token1) == Route(a, b)
    ensures forall s: Address :: Route(a, b) == Some(s) <==> SharedRoute(a, b, s)
  {
  }

  /** The route the code finds, with the three token addresses written out. */
  lemma RouteWrittenOut(a0: Address, a1: Address, b0: Address, b1: Address, stable: Address)
    ensures StableTokenOut(a0, a1, b0, b1) == Some(stable) <==>
            && a0 == b0 && a1 == b1
            && (|| stable == 0xA0b86991c6218b36c1d19D4a2e9Eb0cE3606eB48
                || stable == 0x6B175474E89094C44Da98b954EedeAC495271d0F)
            && (|| (a0 == 0xC02aaA39b223FE8D0A0e5C4F27eAD9083C756Cc2 && a1 == stable)
                || (a1 == 0xC02aaA39b223FE8D0A0e5C4F27eAD9083C756Cc2 && a0 == stable))
  {
  }

  /** A profitable round pins its middle amount between the two floored prices. */
  lemma MiddleBetweenPrices(a: Pool, b: Pool) returns (mid: nat)
    requires Profitable(a, b)
    ensures FEE_DEN * Price(b) < FEE_NUM * mid && FEE_DEN * mid < FEE_NUM * (Price(a) + 1)
  {
    var aIn, aOut, bIn, bOut := WethReserve(a), StableReserve(a), StableReserve(b), WethReserve(b);
    mid := AmountOut(ONE_ETHER, aIn, aOut);
    HopBound(ONE_ETHER, aIn, aOut);
    HopBound(mid, bIn, bOut);
    DivIff(aOut * PRICE_SCALE, aIn, Price(a) + 1);
    DivIff(bIn * PRICE_SCALE, bOut, Price(b));
    BuyBelowPrice(mid, aIn, aOut, Price(a));
    SellAbovePrice(mid, AmountOut(mid, bIn, bOut), bIn, bOut, Price(b));
  }

  lemma BuyBelowPrice(mid: nat, aIn: nat, aOut: nat, price: nat)
    requires aIn > 0 && FEE_DEN * (mid * aIn) <= FEE_NUM * (ONE_ETHER * aOut) && (price + 1) * aIn > aOut * PRICE_SCALE
    ensures FEE_DEN * mid < FEE_NUM * (price + 1)
  {
    if FEE_DEN * mid >= FEE_NUM * (price + 1) {
      Scale(FEE_NUM, price + 1, FEE_DEN, mid, aIn);
      assert false;
    }
  }

  lemma SellAbovePrice(mid: nat, final: nat, bIn: nat, bOut: nat, price: nat)
    requires bIn > 0 && bOut > 0 && final > ONE_ETHER
    requires FEE_DEN * (final * bIn) <= FEE_NUM * (mid * bOut) && price * bOut <= bIn * PRICE_SCALE
    ensures FEE_DEN * price < FEE_NUM * mid
  {
    MulMono(ONE_ETHER + 1, final, bIn);
    if FEE_DEN * price >= FEE_NUM * mid {
      Scale(FEE_NUM, mid, FEE_DEN, price, bOut);
      assert false;
    }
  }

  /** Every profitable direction buys where the floored price is strictly higher. */
  lemma ProfitableIsDearer(a: Pool, b: Pool)
    requires Profitable(a, b)
    ensures Price(a) >= LeastHigh(Price(b)) > Price(b)
  {
    var mid := MiddleBetweenPrices(a, b);
    HighAtLeast(Price(a), Price(b), mid);
  }

  // ----- The least spread -----

  /** The least middle amount that sells for more than one ether at the price `low`. */
  function LeastMid(low: nat): (mid: nat)
    ensures mid > 0 && FEE_NUM * (mid - 1) <= FEE_DEN * low < FEE_NUM * mid
  {
    FEE_DEN * low / FEE_NUM + 1
  }

  /** The least floored price that buys it with one ether. */
  function LeastHigh(low: nat): (high: nat)
    ensures FEE_NUM * high <= FEE_DEN * LeastMid(low) < FEE_NUM * (high + 1)
  {
    FEE_DEN * LeastMid(low) / FEE_NUM
  }

  lemma HighAtLeast(high: nat, low: nat, mid: nat)
    requires FEE_DEN * low < FEE_NUM * mid && FEE_DEN * mid < FEE_NUM * (high + 1)
    ensures high >= LeastHigh(low) > low
  {
    RoundingChain(low, LeastMid(low), LeastHigh(low), mid, high);
  }

  lemma RoundingChain(low: nat, leastMid: nat, leastHigh: nat, mid: nat, high: nat)
    requires FEE_NUM * (leastMid - 1) <= FEE_DEN * low < FEE_NUM * leastMid
    requires FEE_NUM * leastHigh <= FEE_DEN * leastMid < FEE_NUM * (leastHigh + 1)
    requires FEE_DEN * low < FEE_NUM * mid && FEE_DEN * mid < FEE_NUM * (high + 1)
    ensures high >= leastHigh > low
  {
    assert mid >= leastMid > low;
  }

  /** At the price `low`, a profitable pair can leave a spread under 60 basis points. */
  predicate CanReportBelow60(low: nat) {
    low == 0 || (LeastHigh(low) - low) * 10_000 < 60 * low
  }

  /** That never happens from 27170 (in units of 10^-18) up, and it does at 27169. */
  lemma Below60StopsAt27170(low: nat)
    ensures low >= 27_170 ==> !CanReportBelow60(low)
    ensures CanReportBelow60(27_169)
  {
    if 0 < low && CanReportBelow60(low) {
      SmallGapNeedsLowPrice(low, LeastMid(low) - low, LeastHigh(low) - low);
    }
  }

  /** `e` and `d` are the steps from `low` to the middle amount and to the higher price. */
  lemma SmallGapNeedsLowPrice(low: nat, e: int, d: int)
    requires 500 * d < 3 * low
    requires 997 * e >= 3 * low + 1 && 997 * d >= 1000 * e + 3 * low - 996
    ensures low < 27_170
  {
    var j := 2 * e - d;
    assert j >= 1 && 497 * j <= 995 - 6 * e;
    assert e >= 82 ==> j == 1 && e <= 83;
  }

  /** Any reported spread is at least that of the least higher price; a zero lower price reports zero. */
  lemma SpreadAtLeastLeast(a: Pool, b: Pool, stable: Address, ethPriceUsd: real)
    requires Profitable(a, b)
    ensures Reported(a, b, stable, ethPriceUsd).spreadBps >= ExactSpread(LeastHigh(Price(b)), Price(b))
    ensures Price(b) == 0 ==> Reported(a, b, stable, ethPriceUsd).spreadBps == 0
  {
    ProfitableIsDearer(a, b);
    SpreadGrows(Price(a), LeastHigh(Price(b)), Price(b));
  }

  lemma SpreadGrows(high: nat, mid: nat, low: nat)
    requires high >= mid >= low
    ensures ExactSpread(high, low) >= ExactSpread(mid, low)
  {
    if low > 0 {
      DivIff((mid - low) * 10_000, low, (mid - low) * 10_000 / low);
      DivIff((high - low) * 10_000, low, (mid - low) * 10_000 / low);
    }
  }

  lemma SpreadBelow60(high: nat, low: nat)
    requires high >= low
    ensures ExactSpread(high, low) < 60 <==> low == 0 || (high - low) * 10_000 < 60 * low
  {
    if low > 0 {
      DivIff((high - low) * 10_000, low, 60);
    }
  }

  /** A dear and a cheap pool, deep enough that only the fees and the floors count. */
  const DEPTH: nat := 100_000_000

  function DearPool(low: nat): Pool
    requires low < 27_170
  {
    Pool(1, USDC, WETH, DEPTH * (LeastHigh(low) + 1) - 1, DEPTH * ONE_ETHER, 0)
  }

  function CheapPool(low: nat): Pool
    requires low < 27_170
  {
    Pool(2, USDC, WETH, if low == 0 then 1 else DEPTH * low, DEPTH * ONE_ETHER, 0)
  }

  /** On these two the least spread is reported, for every low price. */
  lemma LeastSpreadIsReported(low: nat, ethPriceUsd: real)
    requires low < 27_170
    ensures var a, b := DearPool(low), CheapPool(low);
            && Fits(a) && Fits(b) && SharedRoute(a, b, USDC) && Profitable(a, b)
            && Price(b) == low && Price(a) == LeastHigh(low)
            && Reported(a, b, USDC, ethPriceUsd).spreadBps == ExactSpread(LeastHigh(low), low)
  {
    var a, b := DearPool(low), CheapPool(low);
    var mid := AmountOut(ONE_ETHER, WethReserve(a), StableReserve(a));
    OutputProduct(ONE_ETHER, WethReserve(a), StableReserve(a), LeastMid(low));
    OutputProduct(mid, StableReserve(b), WethReserve(b), ONE_ETHER + 1);
  }

  /** The reported spread can be under 60 basis points at a lower price exactly when `CanReportBelow60` says so. */
  lemma Below60Iff(low: nat)
    ensures CanReportBelow60(low) <==>
            exists a: Pool, b: Pool :: Fits(a) && Fits(b) && SharedRoute(a, b, USDC) && Profitable(a, b) &&
                                       Price(b) == low && Reported(a, b, USDC, 1.0).spreadBps < 60
  {
    SpreadBelow60(LeastHigh(low), low);
    Below60StopsAt27170(low);
    if CanReportBelow60(low) {
      LeastSpreadIsReported(low, 1.0);
    }
    forall a: Pool, b: Pool | Profitable(a, b) && Price(b) == low && Reported(a, b, USDC, 1.0).spreadBps < 60
      ensures CanReportBelow60(low)
    {
      SpreadAtLeastLeast(a, b, USDC, 1.0);
    }
  }

  /** So a reported spread is at least 60 basis points whenever the lower price is at least 27170. */
  lemma ReportedSpreadAtLeast60(a: Pool, b: Pool, stable: Address, ethPriceUsd: real)
    requires Profitable(a, b) && Price(b) >= 27_170
    ensures Reported(a, b, stable, ethPriceUsd).spreadBps >= 60
  {
    SpreadAtLeastLeast(a, b, stable, ethPriceUsd);
    Below60StopsAt27170(Price(b));
    SpreadBelow60(LeastHigh(Price(b)), Price(b));
  }

  /** The spread on all 256-bit prices: reduced modulo 2^256, in basis points of the lower price, saturating. */
  lemma SpreadIsModular(high: U256, low: U256)
    requires low <= high
    ensures SpreadBps(high, low) == SpreadBps(low, high)
    ensures low == 0 ==> SpreadBps(high, low) == 0
    ensures low > 0 ==>
              var bps := (high - low) * 10_000 % TWO_256 / low;
              SpreadBps(high, low) == if bps < 0x8000_0000_0000_0000 then bps else 0x7fff_ffff_ffff_ffff
  {
    WrapIsModulo((high - low) * 10_000);
  }

  /** The spread's wrapping arithmetic is exact on prices of 112-bit reserves. */
  lemma SpreadIsExact(high: nat, low: nat)
    requires low < high < TWO_112 * PRICE_SCALE
    ensures SpreadBps(high, low) == ExactSpread(high, low)
  {
    WrapBelow((high - low) * 10_000);
  }

  lemma BuildProfitable(a: Pool, b: Pool, stable: Address, ethPriceUsd: real)
    requires Fits(a) && Fits(b) && SharedRoute(a, b, stable) && Profitable(a, b)
    ensures BuildOpportunity(a, b, stable, ONE_ETHER, ethPriceUsd) ==
            Found(if ethPriceUsd > 0.0 then Some(Reported(a, b, stable, ethPriceUsd)) else None)
  {
    var profit, high, low := QuotesAreExact(a, b);
    BuildFromQuotes(a, b, stable, ethPriceUsd, WethReserve(a), StableReserve(a), StableReserve(b), WethReserve(b),
                    Quoted(profit), Quoted(high), Quoted(low));
    AssembleExact(a, b, stable, ethPriceUsd, profit, high, low);
  }

  lemma BuildFromQuotes(a: Pool, b: Pool, stable: Address, ethPriceUsd: real,
                        aIn: U256, aOut: U256, bIn: U256, bOut: U256, profit: Quote, priceA: Quote, priceB: Quote)
    requires Fits(a) && Fits(b) && aIn > 0 && aOut > 0 && bIn > 0 && bOut > 0
    requires ReservesForSwap(a, WETH, stable) == Some((aIn, aOut))
    requires ReservesForSwap(b, stable, WETH) == Some((bIn, bOut))
    requires CalculateProfit(ONE_ETHER, aIn, aOut, bIn, bOut) == profit
    requires GetSpotPrice(aIn, aOut) == priceA && GetSpotPrice(bOut, bIn) == priceB && profit != Panic
    ensures BuildOpportunity(a, b, stable, ONE_ETHER, ethPriceUsd) ==
            Found(Assemble(a.poolAddress, b.poolAddress, stable, ONE_ETHER, ethPriceUsd, profit, priceA, priceB))
  {
  }

  /** The three quotes of a profitable direction, in exact arithmetic. */
  lemma QuotesAreExact(a: Pool, b: Pool) returns (profit: U256, high: U256, low: U256)
    requires Fits(a) && Fits(b) && Profitable(a, b)
    ensures profit == RouteProfit(a, b) > 0 && high == Price(a) && low == Price(b) && low < high < TWO_112 * PRICE_SCALE
    ensures CalculateProfit(ONE_ETHER, WethReserve(a), StableReserve(a), StableReserve(b), WethReserve(b)) ==
            Quoted(profit)
    ensures GetSpotPrice(WethReserve(a), StableReserve(a)) == Quoted(high)
    ensures GetSpotPrice(WethReserve(b), StableReserve(b)) == Quoted(low)
  {
    ProfitIsExact(ONE_ETHER, WethReserve(a), StableReserve(a), StableReserve(b), WethReserve(b));
    SpotPriceIsExact(WethReserve(a), StableReserve(a));
    SpotPriceIsExact(WethReserve(b), StableReserve(b));
    ProfitableIsDearer(a, b);
    profit := RouteProfit(a, b);
    high := Price(a);
    low := Price(b);
  }

  lemma AssembleExact(a: Pool, b: Pool, stable: Address, ethPriceUsd: real, profit: U256, high: U256, low: U256)
    requires profit > 0 && low < high < TWO_112 * PRICE_SCALE
    ensures Assemble(a.poolAddress, b.poolAddress, stable, ONE_ETHER, ethPriceUsd,
                     Quoted(profit), Quoted(high), Quoted(low)) ==
            if ethPriceUsd > 0.0
            then Some(Report(a.poolAddress, b.poolAddress, stable, profit, high, low, ethPriceUsd))
            else None
  {
    UsdSign(profit, ethPriceUsd);
    SpreadIsExact(high, low);
    var r := Assemble(a.poolAddress, b.poolAddress, stable, ONE_ETHER, ethPriceUsd,
                      Quoted(profit), Quoted(high), Quoted(low));
    if ethPriceUsd > 0.0 {
      assert r.Some? && r.value.estimatedProfitUsd == ProfitUsd(profit, ethPriceUsd);
    } else {
      assert r == None;
    }
  }

  /** One direction: the code's answer is the exact one. */
  lemma BuildIsExact(a: Pool, b: Pool, stable: Address, ethPriceUsd: real)
    requires Fits(a) && Fits(b) && SharedRoute(a, b, stable)
    ensures BuildOpportunity(a, b, stable, ONE_ETHER, ethPriceUsd) ==
            Found(if ethPriceUsd > 0.0 && Profitable(a, b) then Some(Reported(a, b, stable, ethPriceUsd)) else None)
  {
    if Profitable(a, b) {
      BuildProfitable(a, b, stable, ethPriceUsd);
    } else if Live(a) && Live(b) {
      ProfitIsExact(ONE_ETHER, WethReserve(a), StableReserve(a), StableReserve(b), WethReserve(b));
    }
  }

  lemma UsdSign(wei: nat, ethPriceUsd: real)
    requires wei > 0
    ensures ProfitUsd(wei, ethPriceUsd) > 0.0 <==> ethPriceUsd > 0.0
  {
    var eth := WeiToEth(wei);
    assert eth > 0.0;
    if ethPriceUsd > 0.0 {
      assert eth * ethPriceUsd > 0.0;
    } else {
      assert eth * ethPriceUsd <= 0.0;
    }
  }

  /** Both directions: never both profitable, so the comparison of two opportunities is never reached. */
  lemma DirectionsAreExact(a: Pool, b: Pool, stable: Address, ethPriceUsd: real)
    requires Fits(a) && Fits(b) && SharedRoute(a, b, stable)
    ensures !(Profitable(a, b) && Profitable(b, a))
    ensures var ab := BuildOpportunity(a, b, stable, ONE_ETHER, ethPriceUsd);
            var ba := BuildOpportunity(b, a, stable, ONE_ETHER, ethPriceUsd);
            && ab.Found? && ba.Found? && !(ab.best.Some? && ba.best.Some?)
            && Better(ab.best, ba.best) ==
               if ethPriceUsd <= 0.0 then None
               else if Profitable(a, b) then Some(Reported(a, b, stable, ethPriceUsd))
               else if Profitable(b, a) then Some(Reported(b, a, stable, ethPriceUsd))
               else None
  {
    BuildIsExact(a, b, stable, ethPriceUsd);
    BuildIsExact(b, a, stable, ethPriceUsd);
    if Live(a) && Live(b) {
      NeverBothProfitable(ONE_ETHER, ONE_ETHER, WethReserve(a), StableReserve(a), StableReserve(b), WethReserve(b));
    }
  }

  /** On 112-bit reserves one pair comes to its one profitable direction. */
  lemma PairIsExact(store: map<Address, Pool>, pair: (Address, Address), ethPriceUsd: real)
    requires StoreFits(store)
    ensures var outcome := PairOutcome(store, pair, ethPriceUsd);
            && outcome.Found?
            && ScanOne(store, pair, ethPriceUsd) == if outcome.best.Some? then [outcome.best.value] else []
  {
    if pair.0 in store && pair.1 in store {
      var a, b := store[pair.0], store[pair.1];
      RouteIsShared(a, b);
      if Route(a, b).Some? {
        DirectionsAreExact(a, b, Route(a, b).value, ethPriceUsd);
      }
    }
  }

  /** On 112-bit reserves the scan never panics and lists the profitable directions, in the order of the pairs. */
  lemma {:induction false} ScanIsExact(store: map<Address, Pool>, poolPairs: seq<(Address, Address)>, ethPriceUsd: real)
    requires StoreFits(store)
    ensures ScanOutcome(store, poolPairs, ethPriceUsd) == Some(Scan(store, poolPairs, ethPriceUsd))
  {
    if poolPairs != [] {
      var init := poolPairs[..|poolPairs| - 1];
      ScanIsExact(store, init, ethPriceUsd);
      PairIsExact(store, poolPairs[|poolPairs| - 1], ethPriceUsd);
      assert Scan(store, init, ethPriceUsd) + [] == Scan(store, init, ethPriceUsd);
    }
  }

  // ----- Panics -----

  /** A round out on `a` and back on `b` loses a denominator. */
  predicate RoundCrashes(a: Pool, b: Pool) {
    Live(a) && Live(b) && RoundLosesDenominator(ONE_ETHER, WethReserve(a), StableReserve(a), StableReserve(b))
  }

  /** The two pools share a route and one of the two rounds between them loses a denominator. */
  predicate PairCrashes(store: map<Address, Pool>, pair: (Address, Address)) {
    && pair.0 in store && pair.1 in store && Route(store[pair.0], store[pair.1]).Some?
    && (RoundCrashes(store[pair.0], store[pair.1]) || RoundCrashes(store[pair.1], store[pair.0]))
  }

  lemma BuildCrashesIff(a: Pool, b: Pool, stable: Address, ethPriceUsd: real)
    requires SharedRoute(a, b, stable)
    ensures BuildOpportunity(a, b, stable, ONE_ETHER, ethPriceUsd).Crash? <==> RoundCrashes(a, b)
  {
    ProfitPanicsIff(ONE_ETHER, WethReserve(a), StableReserve(a), StableReserve(b), WethReserve(b));
  }

  lemma PairCrashesIff(store: map<Address, Pool>, pair: (Address, Address), ethPriceUsd: real)
    ensures PairOutcome(store, pair, ethPriceUsd).Crash? <==> PairCrashes(store, pair)
  {
    if pair.0 in store && pair.1 in store {
      var a, b := store[pair.0], store[pair.1];
      RouteIsShared(a, b);
      if Route(a, b).Some? {
        BuildCrashesIff(a, b, Route(a, b).value, ethPriceUsd);
        BuildCrashesIff(b, a, Route(a, b).value, ethPriceUsd);
      }
    }
  }

  /** The scan panics exactly when some configured pair's reserves lose a denominator, whatever the ether price. */
  lemma {:induction false} ScanCrashesIff(store: map<Address, Pool>, poolPairs: seq<(Address, Address)>,
                                          ethPriceUsd: real)
    ensures ScanOutcome(store, poolPairs, ethPriceUsd).None? <==>
            exists pair :: pair in poolPairs && PairCrashes(store, pair)
  {
    if poolPairs != [] {
      var init, last := poolPairs[..|poolPairs| - 1], poolPairs[|poolPairs| - 1];
      assert poolPairs == init + [last];
      PairCrashesIff(store, last, ethPriceUsd);
      ScanCrashesIff(store, init, ethPriceUsd);
    }
  }

  /** Two pools that take the scan down: the round trip's second denominator is 1000 times 2^253. */
  const CRASH_STORE: map<Address, Pool> := map[
    1 := Pool(1, USDC, WETH, 1, 1_000_000 * ONE_ETHER, 0),
    2 := Pool(2, USDC, WETH, TWO_256 / 8, 1, 0)]

  lemma ScanCanCrash(ethPriceUsd: real)
    ensures ScanOutcome(CRASH_STORE, [(1, 2)], ethPriceUsd) == None
  {
    var a, b := CRASH_STORE[1], CRASH_STORE[2];
    assert ModularOut(ONE_ETHER, WethReserve(a), StableReserve(a)) == 0;
    assert RoundCrashes(a, b);
    assert PairCrashes(CRASH_STORE, (1, 2));
    ScanCrashesIff(CRASH_STORE, [(1, 2)], ethPriceUsd);
  }

  // ----- Consequences for the list -----

  /** A configured pair is worth reporting: known pools, a shared route, and profit in one of the directions. */
  predicate Worth(store: map<Address, Pool>, pair: (Address, Address), ethPriceUsd: real) {
    && ethPriceUsd > 0.0 && pair.0 in store && pair.1 in store
    && var a, b := store[pair.0], store[pair.1];
       && StableTokenOut(a.token0, a.token1, b.token0, b.token1).Some?
       && (Profitable(a, b) || Profitable(b, a))
  }

  /** One opportunity for such a pair, in the profitable direction; none for any other. */
  lemma ScanOneIs(store: map<Address, Pool>, pair: (Address, Address), ethPriceUsd: real)
    ensures |ScanOne(store, pair, ethPriceUsd)| == if Worth(store, pair, ethPriceUsd) then 1 else 0
    ensures Worth(store, pair, ethPriceUsd) ==>
              var a, b, o := store[pair.0], store[pair.1], ScanOne(store, pair, ethPriceUsd)[0];
              && (Profitable(a, b) ==> o.poolA == a.poolAddress && o.poolB == b.poolAddress)
              && (Profitable(b, a) && !Profitable(a, b) ==> o.poolA == b.poolAddress && o.poolB == a.poolAddress)
  {
    if pair.0 in store && pair.1 in store {
      RouteIsShared(store[pair.0], store[pair.1]);
    }
  }

  /** Positions of the pairs worth reporting, in order. */
  function WorthAt(store: map<Address, Pool>, poolPairs: seq<(Address, Address)>, ethPriceUsd: real): seq<nat> {
    if poolPairs == [] then []
    else
      var n := |poolPairs| - 1;
      if Worth(store, poolPairs[n], ethPriceUsd) then WorthAt(store, poolPairs[..n], ethPriceUsd) + [n]
      else WorthAt(store, poolPairs[..n], ethPriceUsd)
  }

  lemma {:induction false} WorthAtIff(store: map<Address, Pool>, poolPairs: seq<(Address, Address)>, ethPriceUsd: real,
                                      i: nat)
    ensures i in WorthAt(store, poolPairs, ethPriceUsd) <==> i < |poolPairs| && Worth(store, poolPairs[i], ethPriceUsd)
  {
    if poolPairs != [] {
      WorthAtIff(store, poolPairs[..|poolPairs| - 1], ethPriceUsd, i);
    }
  }

  /** The list has exactly one opportunity for each pair worth reporting, in the order of the pairs. */
  lemma {:induction false} ScanListsExactly(store: map<Address, Pool>, poolPairs: seq<(Address, Address)>,
                                            ethPriceUsd: real)
    ensures var at, out := WorthAt(store, poolPairs, ethPriceUsd), Scan(store, poolPairs, ethPriceUsd);
            && |out| == |at|
            && (forall k :: 0 <= k < |at| ==>
                  at[k] < |poolPairs| && [out[k]] == ScanOne(store, poolPairs[at[k]], ethPriceUsd))
            && (forall j, k :: 0 <= j < k < |at| ==> at[j] < at[k])
  {
    if poolPairs != [] {
      var n := |poolPairs| - 1;
      ScanListsExactly(store, poolPairs[..n], ethPriceUsd);
      ScanOneIs(store, poolPairs[n], ethPriceUsd);
    }
  }

  lemma {:induction false} ScanMember(store: map<Address, Pool>, poolPairs: seq<(Address, Address)>, ethPriceUsd: real,
                                      o: Opportunity) returns (i: nat)
    requires o in Scan(store, poolPairs, ethPriceUsd)
    ensures i < |poolPairs| && o in ScanOne(store, poolPairs[i], ethPriceUsd)
  {
    var n := |poolPairs| - 1;
    if o in ScanOne(store, poolPairs[n], ethPriceUsd) {
      i := n;
    } else {
      i := ScanMember(store, poolPairs[..n], ethPriceUsd, o);
    }
  }

  /** Pools that have seen no Sync log yet report nothing. */
  lemma {:induction false} EmptyPoolsScanEmpty(store: map<Address, Pool>, poolPairs: seq<(Address, Address)>,
                                               ethPriceUsd: real)
    requires forall a :: a in store ==> store[a].reserve0 == 0 && store[a].reserve1 == 0
    ensures Scan(store, poolPairs, ethPriceUsd) == []
  {
    if poolPairs != [] {
      EmptyPoolsScanEmpty(store, poolPairs[..|poolPairs| - 1], ethPriceUsd);
    }
  }
}
