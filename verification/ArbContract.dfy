/**
 The `ZelvexArb` contract running on the chain. Each Solidity function is a method that changes
 balances, allowances and reserves step by step; a revert is `ok == false`, and the transaction entry
 points roll the state back. Their contracts state when a transaction commits, in terms of the
 off-chain profit formula, and every balance it changes.
 */
module ArbContract {
  import opened Words
  import opened Amm
  import opened AmmLaws
  import opened Ledger

  // ----- The pair, as an environment contract -----

  /** Input the pair infers from what it holds above what it expected to keep. */
  function Inferred(held: nat, kept: nat): nat {
    if held > kept then held - kept else 0
  }

  /** When a pair that holds `held0` and `held1` agrees to pay out `out0` and `out1`. */
  predicate PairAccepts(p: Pair, held0: nat, held1: nat, out0: nat, out1: nat) {
    && (out0 > 0 || out1 > 0)
    && out0 < p.reserve0 && out1 < p.reserve1
    && out0 <= held0 && out1 <= held1
    && var in0 := Inferred(held0 - out0, p.reserve0 - out0);
       var in1 := Inferred(held1 - out1, p.reserve1 - out1);
       && (in0 > 0 || in1 > 0)
       && ProductHolds(held0 - out0, held1 - out1, in0, in1, p.reserve0, p.reserve1)
       && held0 - out0 < TWO_112 && held1 - out1 < TWO_112
  }

  function Payout(p: Pair, pool: Address, to: Address, out0: nat, out1: nat): seq<Move> {
    [Move(p.token0, pool, to, out0), Move(p.token1, pool, to, out1)]
  }

  // ----- What the transactions do, as conditions and effects on worlds -----

  /** Output of the formula on a pair's reserves, zero when a reserve is empty. */
  function Output(w: World, pool: Address, tokenIn: Address, tokenOut: Address, x: nat): nat
    requires pool in w.pairs
  {
    var rIn, rOut := Reserve(w, pool, tokenIn), Reserve(w, pool, tokenOut);
    if rIn == 0 || rOut == 0 then 0 else AmountOut(x, rIn, rOut)
  }

  /** The pair's balances still fit 112 bits after the swap. */
  predicate Room(w: World, pool: Address, tokenIn: Address, tokenOut: Address, x: nat, out: nat) {
    Bal(w, tokenIn, pool) + x < TWO_112 && Bal(w, tokenOut, pool) < TWO_112 + out
  }

  /** When `_swap` by `trader` succeeds, and what it moves. */
  predicate SwapWorks(w: World, pool: Address, trader: Address, tokenIn: Address, tokenOut: Address, x: nat)
    requires pool in w.pairs
  {
    var out := Output(w, pool, tokenIn, tokenOut, x);
    out > 0 && x <= Bal(w, tokenIn, trader) && Room(w, pool, tokenIn, tokenOut, x, out)
  }

  function SwapMoves(pool: Address, trader: Address, tokenIn: Address, tokenOut: Address, x: nat, out: nat): seq<Move> {
    [Move(tokenIn, trader, pool, x), Move(tokenOut, pool, trader, out)]
  }

  function FirstLeg(w: World, p: ArbParams): nat
    requires p.poolA in w.pairs
  {
    Output(w, p.poolA, p.tokenIn, p.tokenOut, p.amountIn)
  }

  function SecondLeg(w: World, p: ArbParams): nat
    requires p.poolA in w.pairs && p.poolB in w.pairs
  {
    Output(w, p.poolB, p.tokenOut, p.tokenIn, FirstLeg(w, p))
  }

  /** When both swaps of a round succeed, for distinct pools and tokens, and what they move. */
  predicate RoundWorks(env: Parties, w: World, p: ArbParams)
    requires p.poolA in w.pairs && p.poolB in w.pairs
  {
    && SwapWorks(w, p.poolA, env.self, p.tokenIn, p.tokenOut, p.amountIn)
    && SecondLeg(w, p) > 0
    && Room(w, p.poolB, p.tokenOut, p.tokenIn, FirstLeg(w, p), SecondLeg(w, p))
  }

  /** What comes back from the same pool, whose reserves the first swap has synced to its balances. */
  function BackFromSamePool(w: World, p: ArbParams): nat
    requires p.poolA in w.pairs
  {
    var left := Bal(w, p.tokenOut, p.poolA) - FirstLeg(w, p);
    if left <= 0 then 0 else AmountOut(FirstLeg(w, p), left, Bal(w, p.tokenIn, p.poolA) + p.amountIn)
  }

  predicate SamePoolRoundWorks(env: Parties, w: World, p: ArbParams)
    requires p.poolA in w.pairs
  {
    && SwapWorks(w, p.poolA, env.self, p.tokenIn, p.tokenOut, p.amountIn)
    && BackFromSamePool(w, p) > 0 && Bal(w, p.tokenOut, p.poolA) < TWO_112
  }

  /** The result of the second swap, whichever pool it is on. */
  function Returned(w: World, p: ArbParams): nat
    requires p.poolA in w.pairs && p.poolB in w.pairs
  {
    if p.poolA == p.poolB then BackFromSamePool(w, p) else SecondLeg(w, p)
  }

  function RoundMoves(self: Address, p: ArbParams, mid: nat, final: nat): seq<Move> {
    SwapMoves(p.poolA, self, p.tokenIn, p.tokenOut, p.amountIn, mid) +
    SwapMoves(p.poolB, self, p.tokenOut, p.tokenIn, mid, final)
  }

  /** When `executeOperation` succeeds on its own loan. */
  predicate OperationWorks(env: Parties, w: World, p: ArbParams, premium: nat) {
    && Trades(w, p.poolA, p.tokenIn, p.tokenOut) && Trades(w, p.poolB, p.tokenIn, p.tokenOut)
    && (if p.poolA == p.poolB then SamePoolRoundWorks(env, w, p) else RoundWorks(env, w, p))
    && Returned(w, p) >= p.amountIn + premium + p.minProfit
  }

  /** When the contract's own loan goes through, seen from before the loan, and what it moves in all. */
  predicate LoanWorks(env: Parties, w: World, p: ArbParams, premium: nat) {
    && Trades(w, p.poolA, p.tokenIn, p.tokenOut) && Trades(w, p.poolB, p.tokenIn, p.tokenOut)
    && p.amountIn <= Bal(w, p.tokenIn, env.lender)
    && FirstLeg(w, p) > 0 && SecondLeg(w, p) > 0
    && Room(w, p.poolA, p.tokenIn, p.tokenOut, p.amountIn, FirstLeg(w, p))
    && Room(w, p.poolB, p.tokenOut, p.tokenIn, FirstLeg(w, p), SecondLeg(w, p))
    && SecondLeg(w, p) >= p.amountIn + premium + p.minProfit
  }

  /** The state when the lender comes to collect. */
  ghost predicate Loaned(env: Parties, w: World, w2: World, p: ArbParams, premium: nat) {
    && BothSynced(w, w2, p.poolA, p.poolB)
    && Shifted(w, w2, [Move(p.tokenIn, env.lender, env.self, p.amountIn)] +
                      RoundMoves(env.self, p, FirstLeg(w, p), SecondLeg(w, p)))
    && Bal(w2, p.tokenIn, env.self) >= p.amountIn + premium
    && (forall t: Address, h: Address, s: Address ::
          Allowance(w2, t, h, s) ==
          if t == p.tokenIn && h == env.self && s == env.lender then p.amountIn + premium else Allowance(w, t, h, s))
  }

  function ArbMoves(env: Parties, p: ArbParams, mid: nat, final: nat, premium: nat): seq<Move> {
    [Move(p.tokenIn, env.lender, env.self, p.amountIn)] +
    RoundMoves(env.self, p, mid, final) +
    [Move(p.tokenIn, env.self, env.lender, p.amountIn + premium)]
  }

  /** Both pools synced, every other pair untouched. */
  ghost predicate BothSynced(w: World, w': World, poolA: Address, poolB: Address) {
    && poolA in w.pairs && poolB in w.pairs
    && Synced(w, w', poolA) && Synced(w, w', poolB)
    && w'.pairs.Keys == w.pairs.Keys
    && (forall a :: a in w.pairs && a != poolA && a != poolB ==> w'.pairs[a] == w.pairs[a])
  }

  /** Everything `executeArb` asks of its caller, its pools and the lender, except profit. */
  predicate WellFormed(env: Parties, w: World, sender: Address, p: ArbParams) {
    && sender == env.owner
    && p.minProfit > 0 && p.poolA != p.poolB && p.tokenIn != p.tokenOut
    && Trades(w, p.poolA, p.tokenIn, p.tokenOut) && Trades(w, p.poolB, p.tokenIn, p.tokenOut)
    && p.amountIn <= Bal(w, p.tokenIn, env.lender)
    && Room(w, p.poolA, p.tokenIn, p.tokenOut, p.amountIn, FirstLeg(w, p))
    && Room(w, p.poolB, p.tokenOut, p.tokenIn, FirstLeg(w, p), SecondLeg(w, p))
  }

  /** The profit the off-chain formula reports for these parameters and the pairs' reserves. */
  ghost function OffChainProfit(w: World, p: ArbParams): Quote
    requires PairsSound(w) && p.poolA in w.pairs && p.poolB in w.pairs
  {
    assert PairSound(w, p.poolA) && PairSound(w, p.poolB);
    CalculateProfit(p.amountIn,
                    Reserve(w, p.poolA, p.tokenIn), Reserve(w, p.poolA, p.tokenOut),
                    Reserve(w, p.poolB, p.tokenOut), Reserve(w, p.poolB, p.tokenIn))
  }

  /** `executeArb` commits exactly when, besides, the off-chain formula finds enough profit. */
  ghost predicate ArbCommits(env: Parties, w: World, sender: Address, p: ArbParams, premium: U256)
    requires PairsSound(w)
  {
    && WellFormed(env, w, sender, p)
    && OffChainProfit(w, p).Quoted?
    && OffChainProfit(w, p).amount >= premium + p.minProfit
  }

  /**
   What a committed `executeArb` changes: the lender gains the premium, pool A takes the input and
   pays `mid`, pool B takes `mid` and pays `final`, and the contract keeps the rest of the profit.
   */
  function ArbChange(env: Parties, p: ArbParams, mid: nat, final: nat, premium: nat, token: Address,
                     account: Address): int
  {
    if token == p.tokenIn then
      if account == env.lender then premium
      else if account == env.self then final - p.amountIn - premium
      else if account == p.poolA then p.amountIn
      else if account == p.poolB then -(final as int)
      else 0
    else if token == p.tokenOut then
      if account == p.poolA then -(mid as int)
      else if account == p.poolB then mid
      else 0
    else 0
  }

  /** The whole effect of a committed `executeArb`. */
  ghost predicate ArbSettles(env: Parties, w: World, p: ArbParams, premium: nat, w': World) {
    && BothSynced(w, w', p.poolA, p.poolB)
    && (forall t: Address, a: Address ::
          Bal(w', t, a) == Bal(w, t, a) + ArbChange(env, p, FirstLeg(w, p), SecondLeg(w, p), premium, t, a))
    && (forall t: Address, h: Address, s: Address :: Allowance(w', t, h, s) == Allowance(w, t, h, s))
  }

  predicate WithdrawCommits(env: Parties, w: World, sender: Address, token: Address) {
    sender == env.owner && Bal(w, token, env.self) > 0
  }

  // ----- The contract -----

  class Chain {
    const env: Parties
    var balances: map<Holding, nat>
    var allowances: map<(Address, Address, Address), nat>
    var pairs: map<Address, Pair>

    ghost function W(): World
      reads this
    {
      World(balances, allowances, pairs)
    }

    constructor (env: Parties, w: World)
      ensures this.env == env && W() == w
    {
      this.env := env;
      balances, allowances, pairs := w.balances, w.allowances, w.pairs;
    }

    method BalanceOf(token: Address, account: Address) returns (amount: nat)
      ensures amount == Bal(W(), token, account)
    {
      amount := if (token, account) in balances then balances[(token, account)] else 0;
    }

    /** EIP-20 `transfer`, called by `from`. */
    method Transfer(token: Address, from: Address, to: Address, amount: nat) returns (ok: bool)
      modifies this`balances
      ensures ok <==> amount <= old(Bal(W(), token, from))
      ensures ok ==> Shifted(old(W()), W(), [Move(token, from, to, amount)])
    {
      var have := BalanceOf(token, from);
      if have < amount {
        return false;
      }
      balances := balances[(token, from) := have - amount];
      var had := BalanceOf(token, to);
      balances := balances[(token, to) := had + amount];
      return true;
    }

    /** EIP-20 `approve`, called by `holder`. */
    method Approve(token: Address, holder: Address, spender: Address, amount: nat)
      modifies this`allowances
      ensures forall t: Address, h: Address, s: Address ::
                Allowance(W(), t, h, s) ==
                if t == token && h == holder && s == spender then amount else old(Allowance(W(), t, h, s))
    {
      allowances := allowances[(token, holder, spender) := amount];
    }

    /** EIP-20 `transferFrom`, called by `spender`. */
    method TransferFrom(token: Address, spender: Address, from: Address, to: Address, amount: nat) returns (ok: bool)
      modifies this`balances, this`allowances
      ensures ok <==> amount <= old(Allowance(W(), token, from, spender)) && amount <= old(Bal(W(), token, from))
      ensures ok ==> Shifted(old(W()), W(), [Move(token, from, to, amount)])
      ensures ok ==> forall t: Address, h: Address, s: Address ::
                Allowance(W(), t, h, s) ==
                old(Allowance(W(), t, h, s)) - (if t == token && h == from && s == spender then amount else 0)
    {
      var k := (token, from, spender);
      var allowed := if k in allowances then allowances[k] else 0;
      if allowed < amount {
        return false;
      }
      ok := Transfer(token, from, to, amount);
      if ok {
        allowances := allowances[k := allowed - amount];
      }
    }

    /** `transfer` and `transferFrom` as whole transactions: a failed one leaves no trace. */
    method TransferOrRevert(token: Address, from: Address, to: Address, amount: nat) returns (committed: bool)
      modifies this`balances
      ensures committed <==> amount <= old(Bal(W(), token, from))
      ensures committed ==> Shifted(old(W()), W(), [Move(token, from, to, amount)])
      ensures !committed ==> W() == old(W())
    {
      var snapshot := balances;
      committed := Transfer(token, from, to, amount);
      if !committed {
        balances := snapshot;
      }
    }

    method PullOrRevert(token: Address, spender: Address, from: Address, to: Address, amount: nat)
      returns (committed: bool)
      modifies this`balances, this`allowances
      ensures committed <==> amount <= old(Allowance(W(), token, from, spender)) && amount <= old(Bal(W(), token, from))
      ensures committed ==> Shifted(old(W()), W(), [Move(token, from, to, amount)])
      ensures committed ==> forall t: Address, h: Address, s: Address ::
                Allowance(W(), t, h, s) ==
                old(Allowance(W(), t, h, s)) - (if t == token && h == from && s == spender then amount else 0)
      ensures !committed ==> W() == old(W())
    {
      var snapshot := (balances, allowances);
      committed := TransferFrom(token, spender, from, to, amount);
      if !committed {
        balances, allowances := snapshot.0, snapshot.1;
      }
    }

    /** The pair's `swap`. */
    method PairSwap(pool: Address, out0: nat, out1: nat, to: Address) returns (ok: bool)
      requires pool in pairs && PairSound(W(), pool) && to != pool
      modifies this`balances, this`pairs
      ensures var w := old(W());
              var p := w.pairs[pool];
              ok <==> PairAccepts(p, Bal(w, p.token0, pool), Bal(w, p.token1, pool), out0, out1)
      ensures ok ==> Shifted(old(W()), W(), Payout(old(W()).pairs[pool], pool, to, out0, out1))
      ensures ok ==> Synced(old(W()), W(), pool) && pairs == old(pairs)[pool := pairs[pool]] && PairSound(W(), pool)
    {
      var p := pairs[pool];
      if (out0 == 0 && out1 == 0) || out0 >= p.reserve0 || out1 >= p.reserve1 {
        return false;
      }
      ghost var w := W();
      var paid0 := Transfer(p.token0, pool, to, out0);
      ghost var w1 := W();
      ShiftOne(w, w1, Move(p.token0, pool, to, out0), p.token1, pool);
      var paid1 := Transfer(p.token1, pool, to, out1);
      PayoutComposes(w, w1, W(), p, pool, to, out0, out1);
      var b0 := BalanceOf(p.token0, pool);
      var b1 := BalanceOf(p.token1, pool);
      var in0, in1 := Inferred(b0, p.reserve0 - out0), Inferred(b1, p.reserve1 - out1);
      if in0 == 0 && in1 == 0 {
        return false;
      }
      if !ProductHolds(b0, b1, in0, in1, p.reserve0, p.reserve1) {
        return false;
      }
      if b0 >= TWO_112 || b1 >= TWO_112 {
        return false;
      }
      pairs := pairs[pool := p.(reserve0 := b0, reserve1 := b1)];
      return true;
    }

    /** `_validatePool`. */
    method ValidatePool(pool: Address, tokenA: Address, tokenB: Address) returns (ok: bool)
      ensures ok <==> Trades(W(), pool, tokenA, tokenB)
    {
      if pool !in pairs {
        return false;
      }
      var t0, t1 := pairs[pool].token0, pairs[pool].token1;
      return (tokenA == t0 && tokenB == t1) || (tokenA == t1 && tokenB == t0);
    }

    /** `_getAmountOut`: the formula's output, or a revert on inputs no pair has room for. */
    method GetAmountOut(amountIn: U256, reserveIn: nat, reserveOut: nat) returns (quote: Option<U256>)
      requires reserveIn < TWO_112 && reserveOut < TWO_112
      ensures reserveIn == 0 || reserveOut == 0 ==> quote == None
      ensures reserveIn > 0 && reserveOut > 0 && amountIn < TWO_112 ==> quote.Some?
      ensures quote.Some? ==> reserveIn > 0 && reserveOut > 0
      ensures quote.Some? ==> quote.value == AmountOut(amountIn, reserveIn, reserveOut) < reserveOut
      ensures quote.Some? && quote.value > 0 ==> amountIn > 0
    {
      SwapQuote(amountIn, reserveIn, reserveOut);
      quote := CheckedAmountOut(amountIn, reserveIn, reserveOut);
    }

    /** `_swap`. */
    method Swap(pool: Address, tokenIn: Address, tokenOut: Address, amountIn: U256) returns (ok: bool, amountOut: nat)
      requires PairsSound(W()) && DistinctParties(env, W()) && Trades(W(), pool, tokenIn, tokenOut)
      modifies this`balances, this`pairs
      ensures ok <==> SwapWorks(old(W()), pool, env.self, tokenIn, tokenOut, amountIn)
      ensures ok ==> amountOut == Output(old(W()), pool, tokenIn, tokenOut, amountIn) < TWO_112
      ensures ok ==> Shifted(old(W()), W(), SwapMoves(pool, env.self, tokenIn, tokenOut, amountIn, amountOut))
      ensures ok ==> Synced(old(W()), W(), pool) && pairs == old(pairs)[pool := pairs[pool]]
      ensures ok ==> PairsSound(W())
    {
      ghost var w := W();
      assert PairSound(w, pool);
      var p := pairs[pool];
      var zeroForOne := tokenIn == p.token0;
      var rIn, rOut := p.reserve1, p.reserve0;
      if zeroForOne {
        rIn, rOut := p.reserve0, p.reserve1;
      }
      var quote := GetAmountOut(amountIn, rIn, rOut);
      if quote.None? || quote.value == 0 {
        return false, 0;
      }
      amountOut := quote.value;
      var sent := Transfer(tokenIn, env.self, pool, amountIn);
      if !sent {
        return false, amountOut;
      }
      ghost var w1 := W();
      MoveSeen(w, w1, Move(tokenIn, env.self, pool, amountIn), pool, tokenIn, tokenOut);
      AcceptsIffRoom(w, w1, pool, tokenIn, tokenOut, amountIn);
      var out0, out1 := amountOut, 0;
      if zeroForOne {
        out0, out1 := 0, amountOut;
      }
      ok := PairSwap(pool, out0, out1, env.self);
      if ok {
        SwapComposes(w, w1, W(), pool, env.self, tokenIn, tokenOut, amountIn, amountOut);
        SwapKeepsPairsSound(w, W(), pool, env.self, tokenIn, tokenOut, amountIn, amountOut);
      }
    }

    /** The two swaps of a round: out on pool A, back on pool B. */
    method SwapRound(p: ArbParams) returns (ok: bool, returned: nat)
      requires PairsSound(W()) && DistinctParties(env, W())
      requires Trades(W(), p.poolA, p.tokenIn, p.tokenOut) && Trades(W(), p.poolB, p.tokenIn, p.tokenOut)
      modifies this`balances, this`pairs
      ensures ok <==> if p.poolA == p.poolB then SamePoolRoundWorks(env, old(W()), p) else RoundWorks(env, old(W()), p)
      ensures ok ==> returned == Returned(old(W()), p) < TWO_112
      ensures ok ==> Shifted(old(W()), W(), RoundMoves(env.self, p, FirstLeg(old(W()), p), Returned(old(W()), p)))
      ensures ok ==> BothSynced(old(W()), W(), p.poolA, p.poolB)
    {
      ghost var w := W();
      assert PairSound(w, p.poolA);
      var received;
      ok, received := Swap(p.poolA, p.tokenIn, p.tokenOut, p.amountIn);
      if !ok {
        return false, 0;
      }
      ghost var w1 := W();
      SecondSwapFrame(env, w, w1, p, received);
      ok, returned := Swap(p.poolB, p.tokenOut, p.tokenIn, received);
      if ok {
        ShiftCompose(w, w1, W(),
                     SwapMoves(p.poolA, env.self, p.tokenIn, p.tokenOut, p.amountIn, received),
                     SwapMoves(p.poolB, env.self, p.tokenOut, p.tokenIn, received, returned));
        RoundSyncs(env, w, w1, W(), p, received, returned);
      }
    }

    /** The body of `executeOperation` between its guards and its approval: validate, swap twice, check the profit. */
    method TradeForProfit(p: ArbParams, premium: U256) returns (ok: bool)
      requires PairsSound(W()) && DistinctParties(env, W())
      modifies this`balances, this`pairs
      ensures ok <==> OperationWorks(env, old(W()), p, premium)
      ensures ok ==> Shifted(old(W()), W(), RoundMoves(env.self, p, FirstLeg(old(W()), p), Returned(old(W()), p)))
      ensures ok ==> BothSynced(old(W()), W(), p.poolA, p.poolB)
    {
      var validA := ValidatePool(p.poolA, p.tokenIn, p.tokenOut);
      var validB := ValidatePool(p.poolB, p.tokenOut, p.tokenIn);
      if !validA || !validB {
        return false;
      }
      var traded, returned := SwapRound(p);
      if !traded || p.amountIn + premium >= TWO_256 {
        return false;
      }
      var repay := p.amountIn + premium;
      return repay + p.minProfit < TWO_256 && returned >= repay + p.minProfit;
    }

    /** `executeOperation`, called back by the lender. */
    method ExecuteOperation(caller: Address, asset: Address, amount: U256, premium: U256, initiator: Address,
                            p: ArbParams)
      returns (ok: bool)
      requires PairsSound(W()) && DistinctParties(env, W())
      modifies this`balances, this`allowances, this`pairs
      ensures ok <==> && caller == env.lender && initiator == env.self && asset == p.tokenIn && amount == p.amountIn
                      && OperationWorks(env, old(W()), p, premium)
      ensures ok ==> Shifted(old(W()), W(), RoundMoves(env.self, p, FirstLeg(old(W()), p), Returned(old(W()), p)))
      ensures ok ==> BothSynced(old(W()), W(), p.poolA, p.poolB)
      ensures ok ==> forall t: Address, h: Address, s: Address ::
                Allowance(W(), t, h, s) ==
                if t == asset && h == env.self && s == env.lender then amount + premium
                else old(Allowance(W(), t, h, s))
    {
      if caller != env.lender || initiator != env.self || asset != p.tokenIn || amount != p.amountIn {
        return false;
      }
      ok := TradeForProfit(p, premium);
      if ok {
        Approve(asset, env.self, env.lender, amount + premium);
      }
    }

    /** First half of the lender's `flashLoanSimple` with the contract as receiver: lend and call back. */
    method LendAndCallBack(initiator: Address, asset: Address, amount: U256, premium: U256, p: ArbParams)
      returns (ok: bool)
      requires PairsSound(W()) && DistinctParties(env, W())
      requires initiator == env.self ==> p.poolA != p.poolB && p.tokenIn != p.tokenOut
      modifies this`balances, this`allowances, this`pairs
      ensures ok <==> && initiator == env.self && asset == p.tokenIn && amount == p.amountIn
                      && LoanWorks(env, old(W()), p, premium)
      ensures ok ==> Loaned(env, old(W()), W(), p, premium)
    {
      ghost var w := W();
      var lent := Transfer(asset, env.lender, env.self, amount);
      if !lent {
        return false;
      }
      ghost var w1 := W();
      LoanFrame(env, w, w1, asset, amount);
      if initiator == env.self && asset == p.tokenIn && amount == p.amountIn {
        LoanWorksIff(env, w, w1, p, premium);
      }
      ok := ExecuteOperation(env.lender, asset, amount, premium, initiator, p);
      if ok {
        LoanedRound(env, w, w1, W(), p, FirstLeg(w, p), SecondLeg(w, p));
      }
    }

    /** `flashLoanSimple`: lend, call back, pull loan and premium. */
    method FlashLoanSimple(initiator: Address, asset: Address, amount: U256, premium: U256, p: ArbParams)
      returns (ok: bool)
      requires PairsSound(W()) && DistinctParties(env, W()) && NoStandingApproval(env, W())
      requires initiator == env.self ==> p.poolA != p.poolB && p.tokenIn != p.tokenOut
      modifies this`balances, this`allowances, this`pairs
      ensures ok <==> && initiator == env.self && asset == p.tokenIn && amount == p.amountIn
                      && LoanWorks(env, old(W()), p, premium)
      ensures ok ==> ArbSettles(env, old(W()), p, premium, W())
    {
      ghost var w := W();
      ok := LendAndCallBack(initiator, asset, amount, premium, p);
      if !ok {
        return false;
      }
      ghost var w2 := W();
      ok := TransferFrom(asset, env.lender, env.self, env.lender, amount + premium);
      LoanSettles(env, w, w2, W(), p, premium);
    }

    /** `executeArb`: one transaction, committed whole or reverted whole. */
    method ExecuteArb(sender: Address, p: ArbParams, premium: U256) returns (committed: bool)
      requires Valid(env, W())
      modifies this`balances, this`allowances, this`pairs
      ensures committed <==> ArbCommits(env, old(W()), sender, p, premium)
      ensures committed ==> ArbSettles(env, old(W()), p, premium, W())
      ensures !committed ==> W() == old(W())
    {
      ghost var w := W();
      if sender != env.owner || p.minProfit == 0 || p.poolA == p.poolB || p.tokenIn == p.tokenOut {
        return false;
      }
      var snapshot := (balances, allowances, pairs);
      committed := FlashLoanSimple(env.self, p.tokenIn, p.amountIn, premium, p);
      ProfitDecides(env, w, sender, p, premium);
      if !committed {
        balances, allowances, pairs := snapshot.0, snapshot.1, snapshot.2;
      }
    }

    /** A call of `executeOperation` that is not the lender's answer to the contract's own request. */
    method StrayCallback(caller: Address, asset: Address, amount: U256, premium: U256, initiator: Address, p: ArbParams)
      returns (committed: bool)
      requires Valid(env, W()) && !(caller == env.lender && initiator == env.self)
      modifies this`balances, this`allowances, this`pairs
      ensures !committed && W() == old(W())
    {
      var snapshot := (balances, allowances, pairs);
      committed := ExecuteOperation(caller, asset, amount, premium, initiator, p);
      balances, allowances, pairs := snapshot.0, snapshot.1, snapshot.2;
    }

    /** A loan somebody else takes out in the contract's name. */
    method StrayLoan(initiator: Address, asset: Address, amount: U256, premium: U256, p: ArbParams)
      returns (committed: bool)
      requires Valid(env, W()) && initiator != env.self
      modifies this`balances, this`allowances, this`pairs
      ensures !committed && W() == old(W())
    {
      var snapshot := (balances, allowances, pairs);
      committed := FlashLoanSimple(initiator, asset, amount, premium, p);
      balances, allowances, pairs := snapshot.0, snapshot.1, snapshot.2;
    }

    /** `withdraw`: the whole balance of a token, to the owner, for the owner only. */
    method Withdraw(sender: Address, token: Address) returns (committed: bool)
      requires Valid(env, W())
      modifies this`balances
      ensures committed <==> WithdrawCommits(env, old(W()), sender, token)
      ensures committed ==> Shifted(old(W()), W(), [Move(token, env.self, env.owner, old(Bal(W(), token, env.self)))])
      ensures committed ==> Bal(W(), token, env.self) == 0
      ensures !committed ==> W() == old(W())
    {
      if sender != env.owner {
        return false;
      }
      var amount := BalanceOf(token, env.self);
      if amount == 0 {
        return false;
      }
      committed := Transfer(token, env.self, env.owner, amount);
      ShiftOne(old(W()), W(), Move(token, env.self, env.owner, amount), token, env.self);
    }
  }

  // ----- Lemmas for the steps -----

  /** Extra tokens sitting in the pair only help: the formula's output always passes its check. */
  lemma FormulaOutputPasses(x: nat, rIn: nat, rOut: nat, extraIn: nat, extraOut: nat)
    requires rIn > 0 && rOut > 0
    ensures var out := AmountOut(x, rIn, rOut);
            && out < rOut
            && ProductHolds(rIn + extraIn + x, rOut + extraOut - out, x + extraIn, extraOut, rIn, rOut)
            && ProductHolds(rOut + extraOut - out, rIn + extraIn + x, extraOut, x + extraIn, rOut, rIn)
  {
    var out := AmountOut(x, rIn, rOut);
    OutputIsLargestPassing(x, rIn, rOut, out);
    var u, v := FEE_DEN * (rIn + x) - 3 * x, FEE_DEN * (rOut - out);
    var u' := FEE_DEN * (rIn + extraIn + x) - 3 * (x + extraIn);
    var v' := FEE_DEN * (rOut + extraOut - out) - 3 * extraOut;
    MulMono(u, u', v);
    MulMono(v, v', u');
    Commute(u', v');
    Assoc(FEE_DEN * FEE_DEN, rIn, rOut);
    Assoc(FEE_DEN * FEE_DEN, rOut, rIn);
  }

  lemma Commute(a: int, b: int)
    ensures a * b == b * a
  {
  }

  lemma PayoutComposes(w: World, w1: World, w2: World, p: Pair, pool: Address, to: Address, out0: nat, out1: nat)
    requires p.token0 != p.token1 && pool != to
    requires Shifted(w, w1, [Move(p.token0, pool, to, out0)]) && Shifted(w1, w2, [Move(p.token1, pool, to, out1)])
    ensures Shifted(w, w2, Payout(p, pool, to, out0, out1))
    ensures Bal(w2, p.token0, pool) == Bal(w, p.token0, pool) - out0
    ensures Bal(w1, p.token1, pool) == Bal(w, p.token1, pool)
    ensures Bal(w2, p.token1, pool) == Bal(w, p.token1, pool) - out1
  {
    var m, n := Move(p.token0, pool, to, out0), Move(p.token1, pool, to, out1);
    ShiftCompose(w, w1, w2, [m], [n]);
    assert [m] + [n] == Payout(p, pool, to, out0, out1);
    ShiftOne(w, w1, m, p.token0, pool);
    ShiftOne(w, w1, m, p.token1, pool);
    ShiftOne(w1, w2, n, p.token0, pool);
    ShiftOne(w1, w2, n, p.token1, pool);
  }

  /** A payment to a pair is seen by the pair, and keeps it sound. */
  lemma MoveSeen(w: World, w1: World, m: Move, pool: Address, tokenIn: Address, tokenOut: Address)
    requires pool in w.pairs && PairSound(w, pool) && Trades(w, pool, tokenIn, tokenOut)
    requires m.token == tokenIn && m.to == pool && m.from != pool && m.amount >= 0
    requires w1.pairs == w.pairs && Shifted(w, w1, [m])
    ensures Bal(w1, tokenIn, pool) == Bal(w, tokenIn, pool) + m.amount
    ensures Bal(w1, tokenOut, pool) == Bal(w, tokenOut, pool)
    ensures PairSound(w1, pool)
  {
    ShiftOne(w, w1, m, tokenIn, pool);
    ShiftOne(w, w1, m, tokenOut, pool);
  }

  /** After the input has been sent, the pair accepts the formula's output exactly when it has room. */
  lemma AcceptsIffRoom(w: World, w1: World, pool: Address, tokenIn: Address, tokenOut: Address, x: nat)
    requires Trades(w, pool, tokenIn, tokenOut) && PairSound(w, pool)
    requires Bal(w1, tokenIn, pool) == Bal(w, tokenIn, pool) + x
    requires Bal(w1, tokenOut, pool) == Bal(w, tokenOut, pool)
    requires Output(w, pool, tokenIn, tokenOut, x) > 0 && x > 0
    ensures var p := w.pairs[pool];
            var out := Output(w, pool, tokenIn, tokenOut, x);
            PairAccepts(p, Bal(w1, p.token0, pool), Bal(w1, p.token1, pool),
                        if tokenIn == p.token0 then 0 else out, if tokenIn == p.token0 then out else 0)
            <==> Room(w, pool, tokenIn, tokenOut, x, out)
  {
    var rIn, rOut := Reserve(w, pool, tokenIn), Reserve(w, pool, tokenOut);
    FormulaOutputPasses(x, rIn, rOut, Bal(w, tokenIn, pool) - rIn, Bal(w, tokenOut, pool) - rOut);
  }

  /** Sending the input and receiving the payout amount to the swap's moves. */
  lemma SwapComposes(w: World, w1: World, w2: World, pool: Address, trader: Address,
                     tokenIn: Address, tokenOut: Address, x: nat, out: nat)
    requires Trades(w, pool, tokenIn, tokenOut) && tokenIn != tokenOut
    requires Shifted(w, w1, [Move(tokenIn, trader, pool, x)])
    requires var p := w.pairs[pool];
             Shifted(w1, w2, Payout(p, pool, trader,
                                    if tokenIn == p.token0 then 0 else out, if tokenIn == p.token0 then out else 0))
    ensures Shifted(w, w2, SwapMoves(pool, trader, tokenIn, tokenOut, x, out))
  {
    var p := w.pairs[pool];
    var ns := Payout(p, pool, trader, if tokenIn == p.token0 then 0 else out, if tokenIn == p.token0 then out else 0);
    var m, n := Move(tokenIn, trader, pool, x), Move(tokenOut, pool, trader, out);
    forall t: Address, a: Address
      ensures Bal(w2, t, a) == Bal(w1, t, a) + NetAt([n], t, a)
    {
      NetOne(n, t, a);
      ShiftTwo(w1, w2, ns[0], ns[1], t, a);
    }
    ShiftCompose(w, w1, w2, [m], [n]);
    assert [m] + [n] == SwapMoves(pool, trader, tokenIn, tokenOut, x, out);
  }

  lemma SwapKeepsPairsSound(w: World, w': World, pool: Address, trader: Address,
                            tokenIn: Address, tokenOut: Address, x: nat, out: nat)
    requires PairsSound(w) && Trades(w, pool, tokenIn, tokenOut) && trader !in w.pairs
    requires Shifted(w, w', SwapMoves(pool, trader, tokenIn, tokenOut, x, out))
    requires pool in w'.pairs && w'.pairs == w.pairs[pool := w'.pairs[pool]] && PairSound(w', pool)
    ensures PairsSound(w')
  {
    forall a | a in w'.pairs && a != pool
      ensures PairSound(w', a)
    {
      assert PairSound(w, a);
      var ms := SwapMoves(pool, trader, tokenIn, tokenOut, x, out);
      ShiftTwo(w, w', ms[0], ms[1], w.pairs[a].token0, a);
      ShiftTwo(w, w', ms[0], ms[1], w.pairs[a].token1, a);
    }
  }

  /** What the first swap leaves for the second one. */
  lemma SecondSwapFrame(env: Parties, w: World, w1: World, p: ArbParams, mid: nat)
    requires Trades(w, p.poolA, p.tokenIn, p.tokenOut) && Trades(w, p.poolB, p.tokenIn, p.tokenOut)
    requires p.tokenIn != p.tokenOut && DistinctParties(env, w) && PairSound(w, p.poolA)
    requires SwapWorks(w, p.poolA, env.self, p.tokenIn, p.tokenOut, p.amountIn) && mid == FirstLeg(w, p)
    requires Shifted(w, w1, SwapMoves(p.poolA, env.self, p.tokenIn, p.tokenOut, p.amountIn, mid))
    requires Synced(w, w1, p.poolA) && w1.pairs == w.pairs[p.poolA := w1.pairs[p.poolA]]
    ensures Trades(w1, p.poolB, p.tokenOut, p.tokenIn)
    ensures Output(w1, p.poolB, p.tokenOut, p.tokenIn, mid) == Returned(w, p)
    ensures SwapWorks(w1, p.poolB, env.self, p.tokenOut, p.tokenIn, mid) <==>
            if p.poolA == p.poolB then SamePoolRoundWorks(env, w, p) else RoundWorks(env, w, p)
  {
    var ms := SwapMoves(p.poolA, env.self, p.tokenIn, p.tokenOut, p.amountIn, mid);
    ShiftTwo(w, w1, ms[0], ms[1], p.tokenOut, env.self);
    ShiftTwo(w, w1, ms[0], ms[1], p.tokenOut, p.poolB);
    ShiftTwo(w, w1, ms[0], ms[1], p.tokenIn, p.poolB);
    OutputIsLargestPassing(p.amountIn, Reserve(w, p.poolA, p.tokenIn), Reserve(w, p.poolA, p.tokenOut), mid);
  }

  lemma RoundSyncs(env: Parties, w: World, w1: World, w2: World, p: ArbParams, mid: nat, final: nat)
    requires p.poolA in w.pairs && p.poolB in w.pairs && p.poolA != env.self
    requires Synced(w, w1, p.poolA) && w1.pairs == w.pairs[p.poolA := w1.pairs[p.poolA]]
    requires Synced(w1, w2, p.poolB) && w2.pairs == w1.pairs[p.poolB := w2.pairs[p.poolB]]
    requires Shifted(w1, w2, SwapMoves(p.poolB, env.self, p.tokenOut, p.tokenIn, mid, final))
    ensures BothSynced(w, w2, p.poolA, p.poolB)
  {
    var ms := SwapMoves(p.poolB, env.self, p.tokenOut, p.tokenIn, mid, final);
    var q := w.pairs[p.poolA];
    ShiftTwo(w1, w2, ms[0], ms[1], q.token0, p.poolA);
    ShiftTwo(w1, w2, ms[0], ms[1], q.token1, p.poolA);
  }

  /** A round on one pool is paid for only by tokens that lie in the pool beyond its reserves. */
  lemma SamePoolNeedsSurplus(env: Parties, w: World, p: ArbParams, premium: nat)
    requires PairsSound(w) && p.poolA == p.poolB && OperationWorks(env, w, p, premium)
    ensures || Bal(w, p.tokenIn, p.poolA) > Reserve(w, p.poolA, p.tokenIn)
            || Bal(w, p.tokenOut, p.poolA) > Reserve(w, p.poolA, p.tokenOut)
  {
    assert PairSound(w, p.poolA);
    ZeroInZeroOut(p.amountIn, Reserve(w, p.poolA, p.tokenIn), Reserve(w, p.poolA, p.tokenOut));
    RoundTripLoses(p.amountIn, Reserve(w, p.poolA, p.tokenIn), Reserve(w, p.poolA, p.tokenOut));
  }

  /** Such a pool: reserves of a million each, and nine million more of the token that goes in. */
  const SURPLUS_WORLD: World := World(
    map[(1, 10) := 10_000_000, (2, 10) := 1_000_000, (1, 20) := 1_000], map[],
    map[10 := Pair(1, 2, 1_000_000, 1_000_000)])

  /** There the round on one pool does pay, so the guard against equal pools is needed to rule it out. */
  lemma SurplusCanPay()
    ensures PairsSound(SURPLUS_WORLD)
    ensures OperationWorks(Parties(30, 20, 40), SURPLUS_WORLD, ArbParams(1, 2, 10, 10, 1_000, 8_000), 5)
  {
    var w, p := SURPLUS_WORLD, ArbParams(1, 2, 10, 10, 1_000, 8_000);
    assert FirstLeg(w, p) == 996;
    assert BackFromSamePool(w, p) == 9_931;
  }

  /** Lending to the contract touches no pair. */
  lemma LoanFrame(env: Parties, w: World, w1: World, asset: Address, amount: nat)
    requires PairsSound(w) && DistinctParties(env, w) && w1.pairs == w.pairs
    requires Shifted(w, w1, [Move(asset, env.lender, env.self, amount)])
    ensures PairsSound(w1) && DistinctParties(env, w1)
    ensures forall t: Address, a :: a in w.pairs ==> Bal(w1, t, a) == Bal(w, t, a)
    ensures Bal(w1, asset, env.self) == Bal(w, asset, env.self) + amount
  {
    var m := Move(asset, env.lender, env.self, amount);
    forall t: Address, a | a in w.pairs
      ensures Bal(w1, t, a) == Bal(w, t, a)
    {
      ShiftOne(w, w1, m, t, a);
    }
    ShiftOne(w, w1, m, asset, env.self);
    forall a | a in w1.pairs
      ensures PairSound(w1, a)
    {
      assert PairSound(w, a);
    }
  }

  lemma LoanWorksIff(env: Parties, w: World, w1: World, p: ArbParams, premium: nat)
    requires w1.pairs == w.pairs && p.amountIn <= Bal(w, p.tokenIn, env.lender) && p.poolA != p.poolB
    requires forall t: Address, a :: a in w.pairs ==> Bal(w1, t, a) == Bal(w, t, a)
    requires Bal(w1, p.tokenIn, env.self) == Bal(w, p.tokenIn, env.self) + p.amountIn
    ensures LoanWorks(env, w, p, premium) <==> OperationWorks(env, w1, p, premium)
    ensures p.poolA in w.pairs && p.poolB in w.pairs ==>
              FirstLeg(w1, p) == FirstLeg(w, p) && SecondLeg(w1, p) == SecondLeg(w, p)
  {
  }

  /** Loan and round together: the contract holds the final amount on top of what it had. */
  lemma LoanedRound(env: Parties, w: World, w1: World, w2: World, p: ArbParams, mid: nat, final: nat)
    requires DistinctParties(env, w) && p.poolA in w.pairs && p.poolB in w.pairs && p.tokenIn != p.tokenOut
    requires Shifted(w, w1, [Move(p.tokenIn, env.lender, env.self, p.amountIn)])
    requires Shifted(w1, w2, RoundMoves(env.self, p, mid, final))
    requires w1.pairs == w.pairs && BothSynced(w1, w2, p.poolA, p.poolB)
    ensures BothSynced(w, w2, p.poolA, p.poolB)
    ensures Shifted(w, w2, [Move(p.tokenIn, env.lender, env.self, p.amountIn)] + RoundMoves(env.self, p, mid, final))
    ensures Bal(w2, p.tokenIn, env.self) == Bal(w, p.tokenIn, env.self) + final
  {
    var m := Move(p.tokenIn, env.lender, env.self, p.amountIn);
    ShiftCompose(w, w1, w2, [m], RoundMoves(env.self, p, mid, final));
    ShiftOne(w, w1, m, p.tokenIn, env.self);
    assert Bal(w2, p.tokenIn, env.self) ==
           Bal(w1, p.tokenIn, env.self) + NetAt(RoundMoves(env.self, p, mid, final), p.tokenIn, env.self);
    RoundNet(env.self, p, mid, final, p.tokenIn, env.self);
  }

  lemma RoundNet(self: Address, p: ArbParams, mid: nat, final: nat, t: Address, a: Address)
    ensures NetAt(RoundMoves(self, p, mid, final), t, a) ==
            MoveAt(Move(p.tokenIn, self, p.poolA, p.amountIn), t, a) +
            MoveAt(Move(p.tokenOut, p.poolA, self, mid), t, a) +
            MoveAt(Move(p.tokenOut, self, p.poolB, mid), t, a) +
            MoveAt(Move(p.tokenIn, p.poolB, self, final), t, a)
  {
    var ms := SwapMoves(p.poolA, self, p.tokenIn, p.tokenOut, p.amountIn, mid);
    var ns := SwapMoves(p.poolB, self, p.tokenOut, p.tokenIn, mid, final);
    NetAppend(ms, ns, t, a);
    NetTwo(ms[0], ms[1], t, a);
    NetTwo(ns[0], ns[1], t, a);
  }

  /** The six transfers of an arbitrage net out to its table of changes. */
  lemma ArbNet(env: Parties, p: ArbParams, mid: nat, final: nat, premium: nat, t: Address, a: Address)
    requires p.poolA != p.poolB && p.tokenIn != p.tokenOut && env.self != env.lender
    requires env.self != p.poolA && env.self != p.poolB && env.lender != p.poolA && env.lender != p.poolB
    ensures NetAt(ArbMoves(env, p, mid, final, premium), t, a) == ArbChange(env, p, mid, final, premium, t, a)
  {
    var loan := Move(p.tokenIn, env.lender, env.self, p.amountIn);
    var repay := Move(p.tokenIn, env.self, env.lender, p.amountIn + premium);
    NetAppend([loan] + RoundMoves(env.self, p, mid, final), [repay], t, a);
    NetAppend([loan], RoundMoves(env.self, p, mid, final), t, a);
    RoundNet(env.self, p, mid, final, t, a);
    NetOne(loan, t, a);
    NetOne(repay, t, a);
  }

  /** Loan, round and repayment together are the settlement. */
  lemma LoanSettles(env: Parties, w: World, w2: World, w3: World, p: ArbParams, premium: nat)
    requires DistinctParties(env, w) && NoStandingApproval(env, w) && p.poolA != p.poolB && p.tokenIn != p.tokenOut
    requires Loaned(env, w, w2, p, premium) && w3.pairs == w2.pairs
    requires Shifted(w2, w3, [Move(p.tokenIn, env.self, env.lender, p.amountIn + premium)])
    requires forall t: Address, h: Address, s: Address ::
               Allowance(w3, t, h, s) ==
               Allowance(w2, t, h, s) -
               (if t == p.tokenIn && h == env.self && s == env.lender then p.amountIn + premium else 0)
    ensures ArbSettles(env, w, p, premium, w3)
  {
    var mid, final := FirstLeg(w, p), SecondLeg(w, p);
    var repay := [Move(p.tokenIn, env.self, env.lender, p.amountIn + premium)];
    var loan := [Move(p.tokenIn, env.lender, env.self, p.amountIn)];
    ShiftCompose(w, w2, w3, loan + RoundMoves(env.self, p, mid, final), repay);
    forall t: Address, a: Address
      ensures Bal(w3, t, a) == Bal(w, t, a) + ArbChange(env, p, mid, final, premium, t, a)
    {
      ArbNet(env, p, mid, final, premium, t, a);
      assert Bal(w3, t, a) == Bal(w, t, a) + NetAt(ArbMoves(env, p, mid, final, premium), t, a);
    }
    StillSynced(w, w2, w3, p.poolA, repay[0]);
    StillSynced(w, w2, w3, p.poolB, repay[0]);
  }

  lemma StillSynced(w: World, w2: World, w3: World, pool: Address, m: Move)
    requires pool in w.pairs && Synced(w, w2, pool) && w3.pairs == w2.pairs
    requires Shifted(w2, w3, [m]) && pool != m.from && pool != m.to
    ensures Synced(w, w3, pool)
  {
    var q := w.pairs[pool];
    ShiftOne(w2, w3, m, q.token0, pool);
    ShiftOne(w2, w3, m, q.token1, pool);
  }

  /** On well-formed requests the loan goes through exactly when the off-chain profit covers premium and floor. */
  lemma ProfitDecides(env: Parties, w: World, sender: Address, p: ArbParams, premium: U256)
    requires PairsSound(w)
    requires sender == env.owner && p.minProfit > 0 && p.poolA != p.poolB && p.tokenIn != p.tokenOut
    ensures ArbCommits(env, w, sender, p, premium) <==> LoanWorks(env, w, p, premium)
  {
    if WellFormed(env, w, sender, p) {
      assert PairSound(w, p.poolA) && PairSound(w, p.poolB);
      var aIn, aOut := Reserve(w, p.poolA, p.tokenIn), Reserve(w, p.poolA, p.tokenOut);
      var bIn, bOut := Reserve(w, p.poolB, p.tokenOut), Reserve(w, p.poolB, p.tokenIn);
      if aIn > 0 && aOut > 0 && bIn > 0 && bOut > 0 {
        ProfitIsExact(p.amountIn, aIn, aOut, bIn, bOut);
        ZeroInZeroOut(FirstLeg(w, p), bIn, bOut);
      } else {
        EmptyReserveNoProfit(p.amountIn, aIn, aOut, bIn, bOut);
      }
    }
  }

  /** Balance of a pair in one of its tokens, after `paid` more and `out` less, is below 2^112. */
  predicate FitsAfter(w: World, pool: Address, token: Address, paid: nat, out: nat) {
    Bal(w, token, pool) + paid - out < 0x1_0000_0000_0000_0000_0000_0000_0000
  }

  /** The contract's two quotes and its profit check on given reserves, written out. */
  predicate Pays(w: World, p: ArbParams, premium: nat, aIn: nat, aOut: nat, bIn: nat, bOut: nat) {
    && aIn > 0 && aOut > 0 && bIn > 0 && bOut > 0
    && var mid := 997 * p.amountIn * aOut / (1000 * aIn + 997 * p.amountIn);
       && mid >= 0
       && var final := 997 * mid * bOut / (1000 * bIn + 997 * mid);
          && final >= p.amountIn + premium + p.minProfit
          && FitsAfter(w, p.poolA, p.tokenIn, p.amountIn, 0) && FitsAfter(w, p.poolA, p.tokenOut, 0, mid)
          && FitsAfter(w, p.poolB, p.tokenOut, mid, 0) && FitsAfter(w, p.poolB, p.tokenIn, 0, final)
  }

  /** The commit condition in full, on the caller, the parameters and the state. */
  lemma ArbCommitsIff(env: Parties, w: World, sender: Address, p: ArbParams, premium: U256)
    requires PairsSound(w)
    ensures ArbCommits(env, w, sender, p, premium) <==>
            && sender == env.owner && p.minProfit > 0 && p.poolA != p.poolB && p.tokenIn != p.tokenOut
            && p.poolA in w.pairs && {w.pairs[p.poolA].token0, w.pairs[p.poolA].token1} == {p.tokenIn, p.tokenOut}
            && p.poolB in w.pairs && {w.pairs[p.poolB].token0, w.pairs[p.poolB].token1} == {p.tokenIn, p.tokenOut}
            && p.amountIn <= Bal(w, p.tokenIn, env.lender)
            && var a, b := w.pairs[p.poolA], w.pairs[p.poolB];
               Pays(w, p, premium,
                    if a.token0 == p.tokenIn then a.reserve0 else a.reserve1,
                    if a.token0 == p.tokenIn then a.reserve1 else a.reserve0,
                    if b.token0 == p.tokenIn then b.reserve1 else b.reserve0,
                    if b.token0 == p.tokenIn then b.reserve0 else b.reserve1)
  {
    if p.tokenIn != p.tokenOut && p.poolA in w.pairs && p.poolB in w.pairs {
      assert PairSound(w, p.poolA) && PairSound(w, p.poolB);
      TokensAreTwo(w, p.poolA, p.tokenIn, p.tokenOut);
      TokensAreTwo(w, p.poolB, p.tokenIn, p.tokenOut);
      if Trades(w, p.poolA, p.tokenIn, p.tokenOut) && Trades(w, p.poolB, p.tokenIn, p.tokenOut) && p.minProfit > 0 {
        PaysIff(env, w, p, premium);
        if sender == env.owner && p.poolA != p.poolB {
          ProfitDecides(env, w, sender, p, premium);
        }
      }
    }
  }

  lemma PaysIff(env: Parties, w: World, p: ArbParams, premium: nat)
    requires Trades(w, p.poolA, p.tokenIn, p.tokenOut) && Trades(w, p.poolB, p.tokenIn, p.tokenOut) && p.minProfit > 0
    ensures LoanWorks(env, w, p, premium) <==>
            && p.amountIn <= Bal(w, p.tokenIn, env.lender)
            && Pays(w, p, premium, Reserve(w, p.poolA, p.tokenIn), Reserve(w, p.poolA, p.tokenOut),
                    Reserve(w, p.poolB, p.tokenOut), Reserve(w, p.poolB, p.tokenIn))
  {
    var aIn, aOut := Reserve(w, p.poolA, p.tokenIn), Reserve(w, p.poolA, p.tokenOut);
    var bIn, bOut := Reserve(w, p.poolB, p.tokenOut), Reserve(w, p.poolB, p.tokenIn);
    if aIn > 0 && aOut > 0 && bIn > 0 && bOut > 0 {
      AmountOutWrittenOut(p.amountIn, aIn, aOut);
      AmountOutWrittenOut(FirstLeg(w, p), bIn, bOut);
      ZeroInZeroOut(FirstLeg(w, p), bIn, bOut);
    }
  }

  lemma AmountOutWrittenOut(x: nat, rIn: nat, rOut: nat)
    requires rIn > 0
    ensures AmountOut(x, rIn, rOut) == 997 * x * rOut / (1000 * rIn + 997 * x) >= 0
  {
    Commute(x, 997);
    Commute(rIn, 1000);
  }

  lemma TokensAreTwo(w: World, pool: Address, tokenA: Address, tokenB: Address)
    requires pool in w.pairs && PairSound(w, pool) && tokenA != tokenB
    ensures Trades(w, pool, tokenA, tokenB) <==>
            {w.pairs[pool].token0, w.pairs[pool].token1} == {tokenA, tokenB}
  {
    var p := w.pairs[pool];
    if {p.token0, p.token1} == {tokenA, tokenB} {
      assert p.token0 in {tokenA, tokenB} && p.token1 in {tokenA, tokenB};
    }
  }

  lemma EmptyReserveNoProfit(x: U256, aIn: U256, aOut: U256, bIn: U256, bOut: U256)
    requires aIn == 0 || aOut == 0 || bIn == 0 || bOut == 0
    ensures !CalculateProfit(x, aIn, aOut, bIn, bOut).Quoted?
  {
  }

  lemma SwapQuote(x: U256, rIn: U256, rOut: U256)
    requires rIn < TWO_112 && rOut < TWO_112
    ensures rIn == 0 || rOut == 0 ==> CheckedAmountOut(x, rIn, rOut) == None
    ensures rIn > 0 && rOut > 0 ==>
              && (x < TWO_112 ==> CheckedAmountOut(x, rIn, rOut).Some?)
              && (CheckedAmountOut(x, rIn, rOut).Some? ==>
                    CheckedAmountOut(x, rIn, rOut).value == AmountOut(x, rIn, rOut))
              && AmountOut(x, rIn, rOut) < rOut
              && (AmountOut(x, rIn, rOut) > 0 ==> x > 0)
  {
    if rIn > 0 && rOut > 0 {
      OutputIsLargestPassing(x, rIn, rOut, 0);
      if x < TWO_112 {
        FormsCoincide(x, rIn, rOut);
      }
      if CheckedAmountOut(x, rIn, rOut).Some? {
        CheckedFormIsExactAndAgrees(x, rIn, rOut);
      }
      ZeroInZeroOut(x, rIn, rOut);
    }
  }

  lemma ZeroInZeroOut(x: nat, rIn: nat, rOut: nat)
    requires rIn > 0
    ensures AmountOut(x, rIn, rOut) > 0 ==> x > 0
  {
    OutputProduct(x, rIn, rOut, 1);
  }
}
