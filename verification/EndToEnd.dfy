/**
 From a scanned opportunity to its execution: if the store agrees with the chain, what the scanner
 reports passes the contract's guards, and its transaction commits exactly when the reported profit
 covers the lender's premium.
 */
module EndToEnd {
  import opened Words
  import opened Amm
  import opened Ledger
  import opened ArbContract
  import opened Sync
  import opened Scanner

  /** The profit floor the scanner passes to the executor, in wei. */
  const MIN_PROFIT: U256 := 1

  /** The call the executor encodes for an opportunity. */
  function ParamsFor(o: Opportunity): ArbParams {
    ArbParams(o.tokenIn, o.tokenOut, o.poolA, o.poolB, o.inputAmount, MIN_PROFIT)
  }

  /** The store's pools are pairs of the chain, with their tokens. */
  ghost predicate TokensMatch(store: map<Address, Pool>, w: World) {
    forall a :: a in store ==>
      a in w.pairs && w.pairs[a].token0 == store[a].token0 && w.pairs[a].token1 == store[a].token1
  }

  predicate Unseen(p: Pool) {
    p.reserve0 == 0 && p.reserve1 == 0
  }

  /** Besides, each pool has the chain's reserves, unless no Sync log has been seen for it. */
  ghost predicate Mirrors(store: map<Address, Pool>, w: World) {
    && TokensMatch(store, w)
    && forall a :: a in store && !Unseen(store[a]) ==>
         w.pairs[a].reserve0 == store[a].reserve0 && w.pairs[a].reserve1 == store[a].reserve1
  }

  lemma MirrorFits(store: map<Address, Pool>, w: World)
    requires Mirrors(store, w) && PairsSound(w)
    ensures StoreFits(store)
  {
    forall a | a in store ensures Fits(store[a]) {
      assert PairSound(w, a);
    }
  }

  // ----- The guards: tokens are enough -----

  /** The guards of `executeArb` and `_validatePool`. */
  predicate PassesGuards(w: World, p: ArbParams) {
    && p.minProfit > 0 && p.poolA != p.poolB && p.tokenIn != p.tokenOut
    && Trades(w, p.poolA, p.tokenIn, p.tokenOut) && Trades(w, p.poolB, p.tokenIn, p.tokenOut)
  }

  ghost predicate DistinctPairs(poolPairs: seq<(Address, Address)>) {
    forall pair :: pair in poolPairs ==> pair.0 != pair.1
  }

  lemma PairPassesGuards(w: World, store: map<Address, Pool>, pair: (Address, Address), ethPriceUsd: real)
    requires KeysMatch(store) && TokensMatch(store, w) && pair.0 != pair.1
    ensures var outcome := PairOutcome(store, pair, ethPriceUsd);
            outcome.Found? && outcome.best.Some? ==> PassesGuards(w, ParamsFor(outcome.best.value))
  {
    if pair.0 in store && pair.1 in store {
      RouteIsShared(store[pair.0], store[pair.1]);
    }
  }

  /** Whatever the reserves, stale or not: every opportunity a scan returns passes the contract's guards. */
  lemma {:induction false} ScannedPassesGuards(w: World, store: map<Address, Pool>, poolPairs: seq<(Address, Address)>,
                                               ethPriceUsd: real, o: Opportunity)
    requires KeysMatch(store) && TokensMatch(store, w) && DistinctPairs(poolPairs)
    requires ScanOutcome(store, poolPairs, ethPriceUsd).Some? && o in ScanOutcome(store, poolPairs, ethPriceUsd).value
    ensures PassesGuards(w, ParamsFor(o))
  {
    var init, last := poolPairs[..|poolPairs| - 1], poolPairs[|poolPairs| - 1];
    if o in ScanOutcome(store, init, ethPriceUsd).value {
      ScannedPassesGuards(w, store, init, ethPriceUsd, o);
    } else {
      PairPassesGuards(w, store, last, ethPriceUsd);
    }
  }

  // ----- The commit condition: reserves count -----

  /** Basis points of the lower price, floored, at most the largest 64-bit signed integer, zero for a zero price. */
  function SpreadOf(high: nat, low: nat): int {
    if low == 0 then 0
    else if (high - low) * 10_000 / low < 0x8000_0000_0000_0000 then (high - low) * 10_000 / low
    else 0x7fff_ffff_ffff_ffff
  }

  /** What stands behind a reported opportunity: two different pools of the store, in the profitable direction. */
  predicate Backed(store: map<Address, Pool>, ethPriceUsd: real, o: Opportunity) {
    && o.poolA in store && o.poolB in store && o.poolA != o.poolB
    && o.tokenIn == WETH && o.inputAmount == 1_000_000_000_000_000_000 && o.gasEstimateUsd == 0.0
    && SharedRoute(store[o.poolA], store[o.poolB], o.tokenOut) && Profitable(store[o.poolA], store[o.poolB])
    && o.estimatedProfitUsd * 1_000_000_000_000_000_000.0 ==
       RouteProfit(store[o.poolA], store[o.poolB]) as real * ethPriceUsd
    && o.spreadBps == SpreadOf(Price(store[o.poolA]), Price(store[o.poolB]))
  }

  lemma ScannedIsBacked(store: map<Address, Pool>, poolPairs: seq<(Address, Address)>, ethPriceUsd: real,
                        o: Opportunity)
    requires KeysMatch(store) && o in Scan(store, poolPairs, ethPriceUsd)
    requires DistinctPairs(poolPairs)
    ensures Backed(store, ethPriceUsd, o)
  {
    var i := ScanMember(store, poolPairs, ethPriceUsd, o);
    var a, b := store[poolPairs[i].0], store[poolPairs[i].1];
    RouteIsShared(a, b);
    RouteIsShared(b, a);
    if Profitable(a, b) {
      ReportIsBacked(store, a, b, Route(a, b).value, ethPriceUsd);
    } else {
      ReportIsBacked(store, b, a, Route(a, b).value, ethPriceUsd);
    }
  }

  lemma ReportIsBacked(store: map<Address, Pool>, a: Pool, b: Pool, stable: Address, ethPriceUsd: real)
    requires Profitable(a, b) && SharedRoute(a, b, stable) && a.poolAddress != b.poolAddress
    requires a.poolAddress in store && store[a.poolAddress] == a && b.poolAddress in store && store[b.poolAddress] == b
    ensures Backed(store, ethPriceUsd, Reported(a, b, stable, ethPriceUsd))
  {
    ProfitableIsDearer(a, b);
    SpreadOfIs(Price(a), Price(b));
  }

  lemma SpreadOfIs(high: nat, low: nat)
    requires high >= low
    ensures SpreadOf(high, low) == ExactSpread(high, low)
  {
  }

  /** Everything but profit that a scanned opportunity's transaction needs: a liquid lender and room in both pairs. */
  predicate RoomFor(env: Parties, w: World, p: ArbParams) {
    && p.poolA in w.pairs && p.poolB in w.pairs
    && p.amountIn <= Bal(w, p.tokenIn, env.lender)
    && Room(w, p.poolA, p.tokenIn, p.tokenOut, p.amountIn, FirstLeg(w, p))
    && Room(w, p.poolB, p.tokenOut, p.tokenIn, FirstLeg(w, p), SecondLeg(w, p))
  }

  /**
   If the store mirrors the chain, a scanned opportunity commits exactly when the lender is liquid, both
   pairs have room, and the profit behind the reported dollars is more than the premium.
   */
  lemma ScannedOpportunityCommitsIff(env: Parties, w: World, store: map<Address, Pool>,
                                     poolPairs: seq<(Address, Address)>, ethPriceUsd: real, o: Opportunity,
                                     premium: U256)
    requires Valid(env, w) && KeysMatch(store) && Mirrors(store, w) && DistinctPairs(poolPairs)
    requires o in Scan(store, poolPairs, ethPriceUsd)
    ensures Backed(store, ethPriceUsd, o)
    ensures ArbCommits(env, w, env.owner, ParamsFor(o), premium) <==>
            && RoomFor(env, w, ParamsFor(o))
            && RouteProfit(store[o.poolA], store[o.poolB]) >= premium + 1
  {
    ScannedIsBacked(store, poolPairs, ethPriceUsd, o);
    var a, b := store[o.poolA], store[o.poolB];
    MirrorFits(store, w);
    ReservesMirrored(store, w, a, o.tokenOut);
    ReservesMirrored(store, w, b, o.tokenOut);
    RouteCommitsIff(env, w, a, b, ParamsFor(o), premium);
  }

  lemma RouteCommitsIff(env: Parties, w: World, a: Pool, b: Pool, p: ArbParams, premium: U256)
    requires Valid(env, w) && Fits(a) && Fits(b) && Profitable(a, b)
    requires p.poolA != p.poolB && p.tokenIn != p.tokenOut && p.amountIn == ONE_ETHER && p.minProfit == MIN_PROFIT
    requires Trades(w, p.poolA, p.tokenIn, p.tokenOut) && Trades(w, p.poolB, p.tokenIn, p.tokenOut)
    requires Reserve(w, p.poolA, p.tokenIn) == WethReserve(a) && Reserve(w, p.poolA, p.tokenOut) == StableReserve(a)
    requires Reserve(w, p.poolB, p.tokenIn) == WethReserve(b) && Reserve(w, p.poolB, p.tokenOut) == StableReserve(b)
    ensures ArbCommits(env, w, env.owner, p, premium) <==>
            WellFormed(env, w, env.owner, p) && RouteProfit(a, b) >= premium + 1
  {
    var profit, high, low := QuotesAreExact(a, b);
    assert OffChainProfit(w, p) == Quoted(profit);
  }

  lemma ReservesMirrored(store: map<Address, Pool>, w: World, a: Pool, stable: Address)
    requires Mirrors(store, w) && a.poolAddress in store && store[a.poolAddress] == a && SharedRoute(a, a, stable)
    requires !Unseen(a)
    ensures Trades(w, a.poolAddress, WETH, stable)
    ensures Reserve(w, a.poolAddress, WETH) == WethReserve(a) && Reserve(w, a.poolAddress, stable) == StableReserve(a)
  {
  }
}
