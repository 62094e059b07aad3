/**
 Every run of the chain: the owner's arbitrages and withdrawals interleaved with anything other
 parties do to tokens and pairs. Safety of the contract's funds over whole runs.
 */
module LedgerRuns {
  import opened Words
  import opened Amm
  import opened AmmLaws
  import opened Ledger
  import opened ArbContract

  datatype Tx =
    | ExecuteArb(sender: Address, params: ArbParams, premium: U256)
    | Withdraw(sender: Address, token: Address)
    | StrayCallback(caller: Address, initiator: Address, asset: Address, lent: U256, premium: U256, params: ArbParams)
    | StrayLoan(initiator: Address, asset: Address, lent: U256, premium: U256, params: ArbParams)
    | Send(from: Address, to: Address, token: Address, amount: nat)
    | Approve(holder: Address, spender: Address, token: Address, amount: nat)
    | Pull(spender: Address, holder: Address, to: Address, token: Address, amount: nat)
    | PairTrade(trader: Address, pool: Address, in0: nat, in1: nat, out0: nat, out1: nat)

  /** Accounts that act on their own: not the contract and not a pair. */
  predicate Outsider(env: Parties, w: World, a: Address) {
    a != env.self && a !in w.pairs
  }

  ghost predicate SameAllowances(w: World, w': World) {
    forall t: Address, h: Address, s: Address :: Allowance(w', t, h, s) == Allowance(w, t, h, s)
  }

  function TradeMoves(p: Pair, trader: Address, pool: Address, in0: nat, in1: nat, out0: nat, out1: nat): seq<Move> {
    PayIn(p, trader, pool, in0, in1) + Payout(p, pool, trader, out0, out1)
  }

  /** A committed transaction takes `w` to `w'`. The first two cases are the contract's proved effects. */
  ghost predicate Commits(env: Parties, w: World, tx: Tx, w': World)
    requires PairsSound(w)
  {
    match tx
    case ExecuteArb(sender, p, premium) =>
      ArbCommits(env, w, sender, p, premium) && ArbSettles(env, w, p, premium, w')
    case Withdraw(sender, token) =>
      && WithdrawCommits(env, w, sender, token)
      && w'.pairs == w.pairs && SameAllowances(w, w')
      && Shifted(w, w', [Move(token, env.self, env.owner, Bal(w, token, env.self))])
    case StrayCallback(_, _, _, _, _, _) => false
    case StrayLoan(_, _, _, _, _) => false
    case Send(from, to, token, amount) =>
      && Outsider(env, w, from) && amount <= Bal(w, token, from)
      && w'.pairs == w.pairs && SameAllowances(w, w')
      && Shifted(w, w', [Move(token, from, to, amount)])
    case Approve(holder, spender, token, amount) =>
      && Outsider(env, w, holder)
      && w'.pairs == w.pairs && Shifted(w, w', [])
      && (forall t: Address, h: Address, s: Address ::
            Allowance(w', t, h, s) ==
            if t == token && h == holder && s == spender then amount else Allowance(w, t, h, s))
    case Pull(spender, holder, to, token, amount) =>
      && amount <= Allowance(w, token, holder, spender) && amount <= Bal(w, token, holder)
      && w'.pairs == w.pairs && Shifted(w, w', [Move(token, holder, to, amount)])
      && (forall t: Address, h: Address, s: Address ::
            Allowance(w', t, h, s) ==
            Allowance(w, t, h, s) - (if t == token && h == holder && s == spender then amount else 0))
    case PairTrade(trader, pool, in0, in1, out0, out1) =>
      && Outsider(env, w, trader) && pool in w.pairs && SameAllowances(w, w')
      && PairAccepts(w.pairs[pool], Bal(w, w.pairs[pool].token0, pool) + in0,
                     Bal(w, w.pairs[pool].token1, pool) + in1, out0, out1)
      && Shifted(w, w', TradeMoves(w.pairs[pool], trader, pool, in0, in1, out0, out1))
      && Synced(w, w', pool) && w'.pairs == w.pairs[pool := w'.pairs[pool]]
  }

  /** When a transaction goes through. */
  ghost predicate CanCommit(env: Parties, w: World, tx: Tx)
    requires PairsSound(w)
  {
    match tx
    case ExecuteArb(sender, p, premium) => ArbCommits(env, w, sender, p, premium)
    case Withdraw(sender, token) => WithdrawCommits(env, w, sender, token)
    case StrayCallback(_, _, _, _, _, _) => false
    case StrayLoan(_, _, _, _, _) => false
    case Send(from, to, token, amount) => Outsider(env, w, from) && amount <= Bal(w, token, from)
    case Approve(holder, spender, token, amount) => Outsider(env, w, holder)
    case Pull(spender, holder, to, token, amount) =>
      amount <= Allowance(w, token, holder, spender) && amount <= Bal(w, token, holder)
    case PairTrade(trader, pool, in0, in1, out0, out1) =>
      && Outsider(env, w, trader) && pool in w.pairs
      && var p := w.pairs[pool];
         && in0 <= Bal(w, p.token0, trader) && in1 <= Bal(w, p.token1, trader)
         && PairAccepts(p, Bal(w, p.token0, pool) + in0, Bal(w, p.token1, pool) + in1, out0, out1)
  }

  /** One transaction: committed, if it can be, with its effect, or else reverted without a trace. */
  ghost predicate Step(env: Parties, w: World, tx: Tx, committed: bool, w': World)
    requires PairsSound(w)
  {
    && (committed <==> CanCommit(env, w, tx))
    && if committed then Commits(env, w, tx, w') else w' == w
  }

  // ----- The chain takes these steps -----

  /** Each transaction, carried out on the chain, is a step. */
  method Apply(c: Chain, tx: Tx) returns (committed: bool)
    requires Valid(c.env, c.W())
    modifies c
    ensures Step(c.env, old(c.W()), tx, committed, c.W())
  {
    ghost var w := c.W();
    match tx {
      case ExecuteArb(sender, p, premium) => committed := c.ExecuteArb(sender, p, premium);
      case Withdraw(sender, token) => committed := c.Withdraw(sender, token);
      case StrayCallback(caller, initiator, asset, amount, premium, p) =>
        committed := false;
        if !(caller == c.env.lender && initiator == c.env.self) {
          committed := c.StrayCallback(caller, asset, amount, premium, initiator, p);
        }
      case StrayLoan(initiator, asset, amount, premium, p) =>
        committed := false;
        if initiator != c.env.self {
          committed := c.StrayLoan(initiator, asset, amount, premium, p);
        }
      case Send(from, to, token, amount) =>
        committed := false;
        if from != c.env.self && from !in c.pairs {
          committed := c.TransferOrRevert(token, from, to, amount);
        }
      case Approve(holder, spender, token, amount) =>
        committed := holder != c.env.self && holder !in c.pairs;
        if committed {
          c.Approve(token, holder, spender, amount);
        }
      case Pull(spender, holder, to, token, amount) =>
        committed := c.PullOrRevert(token, spender, holder, to, amount);
      case PairTrade(trader, pool, in0, in1, out0, out1) =>
        committed := false;
        if trader != c.env.self && trader !in c.pairs && pool in c.pairs {
          committed := Trade(c, trader, pool, in0, in1, out0, out1);
        }
    }
  }

  /** Two payments to a pair and its `swap`, in one transaction. */
  method Trade(c: Chain, trader: Address, pool: Address, in0: nat, in1: nat, out0: nat, out1: nat)
    returns (committed: bool)
    requires Valid(c.env, c.W()) && Outsider(c.env, c.W(), trader) && pool in c.pairs
    modifies c
    ensures Step(c.env, old(c.W()), PairTrade(trader, pool, in0, in1, out0, out1), committed, c.W())
  {
    ghost var w := c.W();
    assert PairSound(w, pool);
    var snapshot := (c.balances, c.allowances, c.pairs);
    committed := PayBoth(c, trader, pool, in0, in1);
    if committed {
      ghost var w2 := c.W();
      committed := c.PairSwap(pool, out0, out1, trader);
      if committed {
        TradeSettles(c.env, w, w2, c.W(), trader, pool, in0, in1, out0, out1);
      }
    }
    if !committed {
      c.balances, c.allowances, c.pairs := snapshot.0, snapshot.1, snapshot.2;
    }
  }

  /** The payments of a trade. */
  method PayBoth(c: Chain, trader: Address, pool: Address, in0: nat, in1: nat) returns (ok: bool)
    requires pool in c.pairs && PairSound(c.W(), pool) && trader != pool
    modifies c`balances
    ensures var w, p := old(c.W()), old(c.pairs)[pool];
            && (ok <==> in0 <= Bal(w, p.token0, trader) && in1 <= Bal(w, p.token1, trader))
            && (ok ==> Shifted(w, c.W(), PayIn(p, trader, pool, in0, in1)) && PairSound(c.W(), pool))
            && (ok ==> Bal(c.W(), p.token0, pool) == Bal(w, p.token0, pool) + in0)
            && (ok ==> Bal(c.W(), p.token1, pool) == Bal(w, p.token1, pool) + in1)
  {
    ghost var w := c.W();
    var p := c.pairs[pool];
    ok := c.Transfer(p.token0, trader, pool, in0);
    if ok {
      ghost var w1 := c.W();
      ShiftOne(w, w1, Move(p.token0, trader, pool, in0), p.token1, trader);
      ok := c.Transfer(p.token1, trader, pool, in1);
      if ok {
        PaidBoth(w, w1, c.W(), p, pool, trader, in0, in1);
      }
    }
  }

  function PayIn(p: Pair, trader: Address, pool: Address, in0: nat, in1: nat): seq<Move> {
    [Move(p.token0, trader, pool, in0), Move(p.token1, trader, pool, in1)]
  }

  lemma PaidBoth(w: World, w1: World, w2: World, p: Pair, pool: Address, trader: Address, in0: nat, in1: nat)
    requires pool in w.pairs && p == w.pairs[pool] && PairSound(w, pool) && trader != pool && w2.pairs == w.pairs
    requires Shifted(w, w1, [Move(p.token0, trader, pool, in0)]) && Shifted(w1, w2, [Move(p.token1, trader, pool, in1)])
    ensures Shifted(w, w2, PayIn(p, trader, pool, in0, in1)) && PairSound(w2, pool)
    ensures Bal(w2, p.token0, pool) == Bal(w, p.token0, pool) + in0
    ensures Bal(w2, p.token1, pool) == Bal(w, p.token1, pool) + in1
  {
    var m, n := Move(p.token0, trader, pool, in0), Move(p.token1, trader, pool, in1);
    ShiftCompose(w, w1, w2, [m], [n]);
    assert [m] + [n] == PayIn(p, trader, pool, in0, in1);
    ShiftTwo(w, w2, m, n, p.token0, pool);
    ShiftTwo(w, w2, m, n, p.token1, pool);
  }

  lemma TradeSettles(env: Parties, w: World, w2: World, w3: World, trader: Address, pool: Address,
                     in0: nat, in1: nat, out0: nat, out1: nat)
    requires PairsSound(w) && Outsider(env, w, trader) && pool in w.pairs
    requires w2.pairs == w.pairs && w3.allowances == w.allowances
    requires var p := w.pairs[pool];
             && Shifted(w, w2, PayIn(p, trader, pool, in0, in1)) && Shifted(w2, w3, Payout(p, pool, trader, out0, out1))
             && PairAccepts(p, Bal(w, p.token0, pool) + in0, Bal(w, p.token1, pool) + in1, out0, out1)
    requires Synced(w2, w3, pool) && w3.pairs == w2.pairs[pool := w3.pairs[pool]]
    ensures Commits(env, w, PairTrade(trader, pool, in0, in1, out0, out1), w3)
  {
    var p := w.pairs[pool];
    ShiftCompose(w, w2, w3, PayIn(p, trader, pool, in0, in1), Payout(p, pool, trader, out0, out1));
  }

  /** Any list of transactions, carried out one after the other, is a run. */
  method ApplyAll(c: Chain, txs: seq<Tx>) returns (committed: seq<bool>, ghost ws: seq<World>)
    requires Valid(c.env, c.W())
    modifies c
    ensures Run(c.env, ws, txs, committed) && ws[0] == old(c.W()) && ws[|txs|] == c.W()
  {
    committed, ws := [], [c.W()];
    for i := 0 to |txs|
      invariant |committed| == i && |ws| == i + 1 && ws[0] == old(c.W()) && ws[i] == c.W() && Valid(c.env, c.W())
      invariant forall j :: 0 <= j < i ==> PairsSound(ws[j]) && Step(c.env, ws[j], txs[j], committed[j], ws[j + 1])
    {
      ghost var w := c.W();
      var ok := Apply(c, txs[i]);
      StepKeepsValid(c.env, w, txs[i], ok, c.W());
      committed, ws := committed + [ok], ws + [c.W()];
    }
  }

  // ----- The list of moves behind every committed transaction -----

  ghost function MovesOf(env: Parties, w: World, tx: Tx): seq<Move>
    requires PairsSound(w)
  {
    match tx
    case ExecuteArb(_, p, premium) =>
      if p.poolA in w.pairs && p.poolB in w.pairs
      then ArbMoves(env, p, FirstLeg(w, p), SecondLeg(w, p), premium) else []
    case Withdraw(_, token) => [Move(token, env.self, env.owner, Bal(w, token, env.self))]
    case StrayCallback(_, _, _, _, _, _) => []
    case StrayLoan(_, _, _, _, _) => []
    case Send(from, to, token, amount) => [Move(token, from, to, amount)]
    case Approve(_, _, _, _) => []
    case Pull(_, holder, to, token, amount) => [Move(token, holder, to, amount)]
    case PairTrade(trader, pool, in0, in1, out0, out1) =>
      if pool in w.pairs then TradeMoves(w.pairs[pool], trader, pool, in0, in1, out0, out1) else []
  }

  lemma CommitsAreMoves(env: Parties, w: World, tx: Tx, w': World)
    requires Valid(env, w) && Commits(env, w, tx, w')
    ensures Shifted(w, w', MovesOf(env, w, tx))
  {
    if tx.ExecuteArb? {
      var p := tx.params;
      forall t: Address, a: Address
        ensures Bal(w', t, a) == Bal(w, t, a) + NetAt(MovesOf(env, w, tx), t, a)
      {
        ArbNet(env, p, FirstLeg(w, p), SecondLeg(w, p), tx.premium, t, a);
      }
    }
  }

  lemma TradeNet(p: Pair, trader: Address, pool: Address, in0: nat, in1: nat, out0: nat, out1: nat, t: Address,
                 a: Address)
    ensures NetAt(TradeMoves(p, trader, pool, in0, in1, out0, out1), t, a) ==
            MoveAt(Move(p.token0, trader, pool, in0), t, a) + MoveAt(Move(p.token1, trader, pool, in1), t, a) +
            MoveAt(Move(p.token0, pool, trader, out0), t, a) + MoveAt(Move(p.token1, pool, trader, out1), t, a)
  {
    var m, n := Move(p.token0, trader, pool, in0), Move(p.token1, trader, pool, in1);
    var ns := Payout(p, pool, trader, out0, out1);
    NetAppend([m, n], ns, t, a);
    NetTwo(m, n, t, a);
    NetTwo(ns[0], ns[1], t, a);
  }

  // ----- Each transaction keeps the invariant -----

  lemma ArbKeepsPairsSound(env: Parties, w: World, sender: Address, p: ArbParams, premium: U256, w': World)
    requires Valid(env, w) && ArbCommits(env, w, sender, p, premium) && ArbSettles(env, w, p, premium, w')
    ensures PairsSound(w')
  {
    forall a | a in w'.pairs
      ensures PairSound(w', a)
    {
      if a == p.poolA || a == p.poolB {
        ArbKeepsItsPairSound(env, w, sender, p, premium, w', a);
      } else {
        ArbKeepsOtherPairSound(env, w, p, premium, w', a);
      }
    }
  }

  lemma ArbKeepsItsPairSound(env: Parties, w: World, sender: Address, p: ArbParams, premium: U256, w': World,
                             a: Address)
    requires Valid(env, w) && ArbCommits(env, w, sender, p, premium) && ArbSettles(env, w, p, premium, w')
    requires a == p.poolA || a == p.poolB
    ensures a in w'.pairs && PairSound(w', a)
  {
    assert PairSound(w, a);
    var mid, final := FirstLeg(w, p), SecondLeg(w, p);
    assert Bal(w', p.tokenIn, a) == Bal(w, p.tokenIn, a) + ArbChange(env, p, mid, final, premium, p.tokenIn, a);
    assert Bal(w', p.tokenOut, a) == Bal(w, p.tokenOut, a) + ArbChange(env, p, mid, final, premium, p.tokenOut, a);
  }

  lemma ArbKeepsOtherPairSound(env: Parties, w: World, p: ArbParams, premium: U256, w': World, a: Address)
    requires Valid(env, w) && ArbSettles(env, w, p, premium, w') && a in w.pairs && a != p.poolA && a != p.poolB
    ensures a in w'.pairs && PairSound(w', a)
  {
    assert PairSound(w, a);
    var mid, final, q := FirstLeg(w, p), SecondLeg(w, p), w.pairs[a];
    assert Bal(w', q.token0, a) == Bal(w, q.token0, a) + ArbChange(env, p, mid, final, premium, q.token0, a);
    assert Bal(w', q.token1, a) == Bal(w, q.token1, a) + ArbChange(env, p, mid, final, premium, q.token1, a);
  }

  lemma TradeKeepsPairsSound(env: Parties, w: World, tx: Tx, w': World)
    requires Valid(env, w) && tx.PairTrade? && Commits(env, w, tx, w')
    ensures PairsSound(w')
  {
    forall a | a in w'.pairs
      ensures PairSound(w', a)
    {
      assert PairSound(w, a) && PairSound(w, tx.pool);
      var q, p := w.pairs[a], w.pairs[tx.pool];
      TradeNet(p, tx.trader, tx.pool, tx.in0, tx.in1, tx.out0, tx.out1, q.token0, a);
      TradeNet(p, tx.trader, tx.pool, tx.in0, tx.in1, tx.out0, tx.out1, q.token1, a);
      var ms := TradeMoves(p, tx.trader, tx.pool, tx.in0, tx.in1, tx.out0, tx.out1);
      assert Bal(w', q.token0, a) == Bal(w, q.token0, a) + NetAt(ms, q.token0, a);
      assert Bal(w', q.token1, a) == Bal(w, q.token1, a) + NetAt(ms, q.token1, a);
    }
  }

  /** A single move whose source is no pair leaves every pair sound. */
  lemma MoveKeepsPairsSound(w: World, w': World, m: Move)
    requires PairsSound(w) && w'.pairs == w.pairs && Shifted(w, w', [m]) && m.amount >= 0
    requires m.from !in w.pairs || m.amount == 0
    ensures PairsSound(w')
  {
    forall a | a in w'.pairs
      ensures PairSound(w', a)
    {
      assert PairSound(w, a);
      ShiftOne(w, w', m, w.pairs[a].token0, a);
      ShiftOne(w, w', m, w.pairs[a].token1, a);
    }
  }

  lemma StepKeepsValid(env: Parties, w: World, tx: Tx, committed: bool, w': World)
    requires Valid(env, w) && Step(env, w, tx, committed, w')
    ensures Valid(env, w') && w'.pairs.Keys == w.pairs.Keys
  {
    if committed {
      match tx {
        case ExecuteArb(sender, p, premium) => ArbKeepsPairsSound(env, w, sender, p, premium, w');
        case Withdraw(_, token) =>
          MoveKeepsPairsSound(w, w', Move(token, env.self, env.owner, Bal(w, token, env.self)));
        case StrayCallback(_, _, _, _, _, _) =>
        case StrayLoan(_, _, _, _, _) =>
        case Send(from, to, token, amount) => MoveKeepsPairsSound(w, w', Move(token, from, to, amount));
        case Approve(_, _, _, _) =>
          forall a | a in w'.pairs ensures PairSound(w', a) {
            assert PairSound(w, a);
            assert Bal(w', w.pairs[a].token0, a) == Bal(w, w.pairs[a].token0, a) + NetAt([], w.pairs[a].token0, a);
            assert Bal(w', w.pairs[a].token1, a) == Bal(w, w.pairs[a].token1, a) + NetAt([], w.pairs[a].token1, a);
          }
        case Pull(spender, holder, to, token, amount) => MoveKeepsPairsSound(w, w', Move(token, holder, to, amount));
        case PairTrade(_, _, _, _, _, _) => TradeKeepsPairsSound(env, w, tx, w');
      }
    }
  }

  // ----- What one transaction does to the contract's funds -----

  /** Profit floor: a committed arbitrage pays the contract exactly the off-chain profit less the premium. */
  lemma ArbGain(env: Parties, w: World, sender: Address, p: ArbParams, premium: U256, w': World)
    requires Valid(env, w) && ArbCommits(env, w, sender, p, premium) && ArbSettles(env, w, p, premium, w')
    ensures Bal(w', p.tokenIn, env.self) == Bal(w, p.tokenIn, env.self) + OffChainProfit(w, p).amount - premium
    ensures Bal(w', p.tokenIn, env.self) >= Bal(w, p.tokenIn, env.self) + p.minProfit
    ensures forall t: Address :: t != p.tokenIn ==> Bal(w', t, env.self) == Bal(w, t, env.self)
    ensures Bal(w', p.tokenIn, env.lender) == Bal(w, p.tokenIn, env.lender) + premium
  {
    ProfitDecides(env, w, sender, p, premium);
    assert PairSound(w, p.poolA) && PairSound(w, p.poolB);
    ProfitIsExact(p.amountIn,
                  Reserve(w, p.poolA, p.tokenIn), Reserve(w, p.poolA, p.tokenOut),
                  Reserve(w, p.poolB, p.tokenOut), Reserve(w, p.poolB, p.tokenIn));
    var mid, final := FirstLeg(w, p), SecondLeg(w, p);
    assert Bal(w', p.tokenIn, env.self) ==
           Bal(w, p.tokenIn, env.self) + ArbChange(env, p, mid, final, premium, p.tokenIn, env.self);
    assert Bal(w', p.tokenIn, env.lender) ==
           Bal(w, p.tokenIn, env.lender) + ArbChange(env, p, mid, final, premium, p.tokenIn, env.lender);
    forall t: Address | t != p.tokenIn
      ensures Bal(w', t, env.self) == Bal(w, t, env.self)
    {
      assert Bal(w', t, env.self) == Bal(w, t, env.self) + ArbChange(env, p, mid, final, premium, t, env.self);
    }
  }

  /** The contract loses tokens only when the owner withdraws, and then the owner gets them. */
  ghost predicate FallsOnlyByWithdraw(env: Parties, w: World, tx: Tx, committed: bool, w': World) {
    forall t: Address :: Bal(w', t, env.self) < Bal(w, t, env.self) ==>
      && committed && tx == Withdraw(env.owner, t) && Bal(w', t, env.self) == 0
      && Bal(w', t, env.owner) == Bal(w, t, env.owner) + Bal(w, t, env.self)
  }

  lemma StepProtectsFunds(env: Parties, w: World, tx: Tx, committed: bool, w': World)
    requires Valid(env, w) && Step(env, w, tx, committed, w')
    ensures FallsOnlyByWithdraw(env, w, tx, committed, w')
  {
    forall t: Address
      ensures Bal(w', t, env.self) < Bal(w, t, env.self) ==>
                && committed && tx == Withdraw(env.owner, t) && Bal(w', t, env.self) == 0
                && Bal(w', t, env.owner) == Bal(w, t, env.owner) + Bal(w, t, env.self)
    {
      if committed {
        FundsAfter(env, w, tx, w', t);
      }
    }
  }

  lemma FundsAfter(env: Parties, w: World, tx: Tx, w': World, t: Address)
    requires Valid(env, w) && Commits(env, w, tx, w')
    ensures if tx.Withdraw? && t == tx.token then
              && tx.sender == env.owner && Bal(w', t, env.self) == 0
              && Bal(w', t, env.owner) == Bal(w, t, env.owner) + Bal(w, t, env.self)
            else Bal(w', t, env.self) >= Bal(w, t, env.self)
  {
    match tx {
      case ExecuteArb(sender, p, premium) => ArbGain(env, w, sender, p, premium, w');
      case Withdraw(_, token) =>
        var m := Move(token, env.self, env.owner, Bal(w, token, env.self));
        ShiftOne(w, w', m, t, env.self);
        ShiftOne(w, w', m, t, env.owner);
      case StrayCallback(_, _, _, _, _, _) =>
      case StrayLoan(_, _, _, _, _) =>
      case Send(from, to, token, amount) => ShiftOne(w, w', Move(token, from, to, amount), t, env.self);
      case Approve(_, _, _, _) => assert Bal(w', t, env.self) == Bal(w, t, env.self) + NetAt([], t, env.self);
      case Pull(spender, holder, to, token, amount) => ShiftOne(w, w', Move(token, holder, to, amount), t, env.self);
      case PairTrade(trader, pool, in0, in1, out0, out1) =>
        TradeNet(w.pairs[pool], trader, pool, in0, in1, out0, out1, t, env.self);
        var ms := TradeMoves(w.pairs[pool], trader, pool, in0, in1, out0, out1);
        assert Bal(w', t, env.self) == Bal(w, t, env.self) + NetAt(ms, t, env.self);
    }
  }

  // ----- Who may do what -----

  /** Only the owner's guarded arbitrages and withdrawals of something commit, and withdrawals always do. */
  lemma StepIsAuthorized(env: Parties, w: World, tx: Tx, committed: bool, w': World)
    requires Valid(env, w) && Step(env, w, tx, committed, w')
    ensures committed && tx.ExecuteArb? ==>
              && tx.sender == env.owner && tx.params.minProfit > 0
              && tx.params.poolA != tx.params.poolB && tx.params.tokenIn != tx.params.tokenOut
    ensures tx.Withdraw? ==> (committed <==> tx.sender == env.owner && Bal(w, tx.token, env.self) > 0)
    ensures tx.StrayCallback? || tx.StrayLoan? ==> !committed
  {
    if committed && tx.ExecuteArb? {
      ArbCommitsIff(env, w, tx.sender, tx.params, tx.premium);
    }
  }

  // ----- Products -----

  function Product(w: World, pool: Address): nat
    requires pool in w.pairs
  {
    w.pairs[pool].reserve0 * w.pairs[pool].reserve1
  }

  /** The fee-adjusted check implies the plain one. */
  lemma CheckImpliesGrowth(b0: nat, b1: nat, in0: nat, in1: nat, r0: nat, r1: nat)
    requires ProductHolds(b0, b1, in0, in1, r0, r1) && 3 * in0 <= FEE_DEN * b0 && 3 * in1 <= FEE_DEN * b1
    ensures b0 * b1 >= r0 * r1
  {
    var u, v := FEE_DEN * b0 - 3 * in0, FEE_DEN * b1 - 3 * in1;
    MulMono(u, FEE_DEN * b0, v);
    MulMono(v, FEE_DEN * b1, FEE_DEN * b0);
    assert (FEE_DEN * b0) * (FEE_DEN * b1) == FEE_DEN * FEE_DEN * (b0 * b1);
    Assoc(FEE_DEN * FEE_DEN, r0, r1);
  }

  /** A swap of the contract leaves its pool with at least the old product. */
  lemma SwapGrows(x: nat, rIn: nat, rOut: nat, bIn: nat, bOut: nat)
    requires rIn > 0 && bIn >= rIn + x && bOut >= rOut - AmountOut(x, rIn, rOut)
    ensures bIn * bOut >= rIn * rOut
  {
    SwapGrowsProduct(x, rIn, rOut);
    var s := rOut - AmountOut(x, rIn, rOut);
    MulMono(rIn + x, bIn, s);
    MulMono(s, bOut, bIn);
  }

  lemma ArbGrowsProduct(env: Parties, w: World, p: ArbParams, premium: U256, w': World, pool: Address)
    requires Valid(env, w) && ArbCommits(env, w, env.owner, p, premium) && ArbSettles(env, w, p, premium, w')
    requires pool == p.poolA || pool == p.poolB
    ensures pool in w'.pairs && Product(w', pool) >= Product(w, pool)
  {
    ProfitDecides(env, w, env.owner, p, premium);
    assert PairSound(w, pool);
    var mid, final := FirstLeg(w, p), SecondLeg(w, p);
    var tIn, tOut, x := if pool == p.poolA then p.tokenIn else p.tokenOut,
                        if pool == p.poolA then p.tokenOut else p.tokenIn,
                        if pool == p.poolA then p.amountIn else mid;
    assert Bal(w', tIn, pool) == Bal(w, tIn, pool) + ArbChange(env, p, mid, final, premium, tIn, pool);
    assert Bal(w', tOut, pool) == Bal(w, tOut, pool) + ArbChange(env, p, mid, final, premium, tOut, pool);
    SwapGrows(x, Reserve(w, pool, tIn), Reserve(w, pool, tOut), Bal(w', tIn, pool), Bal(w', tOut, pool));
    Commute(w'.pairs[pool].reserve0, w'.pairs[pool].reserve1);
    Commute(w.pairs[pool].reserve0, w.pairs[pool].reserve1);
  }

  lemma TradeGrowsProduct(env: Parties, w: World, tx: Tx, w': World)
    requires Valid(env, w) && tx.PairTrade? && Commits(env, w, tx, w')
    ensures tx.pool in w'.pairs && Product(w', tx.pool) >= Product(w, tx.pool)
  {
    var pool := tx.pool;
    var p := w.pairs[pool];
    assert PairSound(w, pool);
    TradeNet(p, tx.trader, pool, tx.in0, tx.in1, tx.out0, tx.out1, p.token0, pool);
    TradeNet(p, tx.trader, pool, tx.in0, tx.in1, tx.out0, tx.out1, p.token1, pool);
    var ms := TradeMoves(p, tx.trader, pool, tx.in0, tx.in1, tx.out0, tx.out1);
    assert Bal(w', p.token0, pool) == Bal(w, p.token0, pool) + NetAt(ms, p.token0, pool);
    assert Bal(w', p.token1, pool) == Bal(w, p.token1, pool) + NetAt(ms, p.token1, pool);
    var b0, b1 := Bal(w', p.token0, pool), Bal(w', p.token1, pool);
    CheckImpliesGrowth(b0, b1, Inferred(b0, p.reserve0 - tx.out0), Inferred(b1, p.reserve1 - tx.out1),
                       p.reserve0, p.reserve1);
  }

  lemma StepGrowsProducts(env: Parties, w: World, tx: Tx, committed: bool, w': World, pool: Address)
    requires Valid(env, w) && Step(env, w, tx, committed, w') && pool in w.pairs
    ensures pool in w'.pairs && Product(w', pool) >= Product(w, pool)
  {
    if committed && tx.ExecuteArb? && (pool == tx.params.poolA || pool == tx.params.poolB) {
      ArbGrowsProduct(env, w, tx.params, tx.premium, w', pool);
    } else if committed && tx.PairTrade? && pool == tx.pool {
      TradeGrowsProduct(env, w, tx, w');
    }
  }

  // ----- Whole runs -----

  ghost predicate Run(env: Parties, ws: seq<World>, txs: seq<Tx>, committed: seq<bool>) {
    && |ws| == |txs| + 1 && |committed| == |txs|
    && Valid(env, ws[0])
    && forall i :: 0 <= i < |txs| ==> PairsSound(ws[i]) && Step(env, ws[i], txs[i], committed[i], ws[i + 1])
  }

  /**
   Over every run, at every point: the invariant holds (in particular no approval is left standing),
   every token's total is what it was, every pair's product has not fallen, and each transaction
   takes from the contract only by the owner's withdrawal.
   */
  lemma {:induction false} RunIsSafe(env: Parties, ws: seq<World>, txs: seq<Tx>, committed: seq<bool>, n: nat)
    requires Run(env, ws, txs, committed) && n <= |txs|
    ensures Valid(env, ws[n]) && ws[n].pairs.Keys == ws[0].pairs.Keys
    ensures forall t: Address :: Total(ws[n], t) == Total(ws[0], t)
    ensures forall a :: a in ws[0].pairs ==> a in ws[n].pairs && Product(ws[n], a) >= Product(ws[0], a)
    ensures forall i :: 0 <= i < n ==> FallsOnlyByWithdraw(env, ws[i], txs[i], committed[i], ws[i + 1])
    ensures forall i :: 0 <= i < n && committed[i] && (txs[i].ExecuteArb? || txs[i].Withdraw?) ==>
              txs[i].sender == env.owner
    ensures forall i :: 0 <= i < n && committed[i] && txs[i].ExecuteArb? ==>
              && txs[i].params.minProfit > 0
              && txs[i].params.poolA != txs[i].params.poolB && txs[i].params.tokenIn != txs[i].params.tokenOut
  {
    if n > 0 {
      RunIsSafe(env, ws, txs, committed, n - 1);
      var w, w' := ws[n - 1], ws[n];
      assert Step(env, w, txs[n - 1], committed[n - 1], ws[n - 1 + 1]);
      StepKeepsValid(env, w, txs[n - 1], committed[n - 1], w');
      StepProtectsFunds(env, w, txs[n - 1], committed[n - 1], w');
      StepIsAuthorized(env, w, txs[n - 1], committed[n - 1], w');
      forall a | a in ws[0].pairs
        ensures a in w'.pairs && Product(w', a) >= Product(ws[0], a)
      {
        assert a in w.pairs && Product(w, a) >= Product(ws[0], a);
        StepGrowsProducts(env, w, txs[n - 1], committed[n - 1], w', a);
      }
      forall t: Address
        ensures Total(w', t) == Total(ws[0], t)
      {
        StepConserves(env, w, txs[n - 1], committed[n - 1], w', t);
        assert Total(w, t) == Total(ws[0], t);
      }
    }
  }

  lemma StepConserves(env: Parties, w: World, tx: Tx, committed: bool, w': World, t: Address)
    requires Valid(env, w) && Step(env, w, tx, committed, w')
    ensures Total(w', t) == Total(w, t)
  {
    if committed {
      CommitsAreMoves(env, w, tx, w');
      MovesConserve(w, w', MovesOf(env, w, tx), t);
    }
  }

  lemma RunStep(env: Parties, ws: seq<World>, txs: seq<Tx>, committed: seq<bool>, n: nat)
    requires Run(env, ws, txs, committed) && n < |txs|
    ensures Valid(env, ws[n]) && Step(env, ws[n], txs[n], committed[n], ws[n + 1])
  {
    RunIsSafe(env, ws, txs, committed, n);
  }

  /** The profit floor a transaction promises in token `t`, if it commits. */
  function Floor(tx: Tx, committed: bool, t: Address): nat {
    if committed && tx.ExecuteArb? && tx.params.tokenIn == t then tx.params.minProfit else 0
  }

  /** What a transaction hands to the owner from the contract's funds. */
  function HandedOut(env: Parties, w: World, tx: Tx, committed: bool, t: Address): nat {
    if committed && tx.Withdraw? && tx.token == t then Bal(w, t, env.self) else 0
  }

  lemma StepEarnsItsFloor(env: Parties, w: World, tx: Tx, committed: bool, w': World, t: Address)
    requires Valid(env, w) && Step(env, w, tx, committed, w')
    ensures Bal(w', t, env.self) + HandedOut(env, w, tx, committed, t) >= Bal(w, t, env.self) + Floor(tx, committed, t)
  {
    if committed {
      FundsAfter(env, w, tx, w', t);
      if tx.ExecuteArb? {
        ArbGain(env, w, tx.sender, tx.params, tx.premium, w');
      }
    }
  }

  /** Profit floors promised by the first `n` transactions' committed arbitrages in token `t`. */
  function Floors(txs: seq<Tx>, committed: seq<bool>, t: Address, n: nat): nat
    requires n <= |txs| && |committed| == |txs|
  {
    if n == 0 then 0 else Floors(txs, committed, t, n - 1) + Floor(txs[n - 1], committed[n - 1], t)
  }

  /** Amounts of token `t` the owner withdrew in the first `n` transactions. */
  function Withdrawn(env: Parties, ws: seq<World>, txs: seq<Tx>, committed: seq<bool>, t: Address, n: nat): nat
    requires n <= |txs| && |committed| == |txs| && |ws| == |txs| + 1
  {
    if n == 0 then 0
    else Withdrawn(env, ws, txs, committed, t, n - 1) + HandedOut(env, ws[n - 1], txs[n - 1], committed[n - 1], t)
  }

  /** The first `n` transactions each earn their floor. */
  ghost predicate EachEarns(env: Parties, ws: seq<World>, txs: seq<Tx>, committed: seq<bool>, t: Address, n: nat)
    requires n <= |txs| && |committed| == |txs| && |ws| == |txs| + 1
  {
    forall i :: 0 <= i < n ==>
      Bal(ws[i + 1], t, env.self) + HandedOut(env, ws[i], txs[i], committed[i], t) >=
      Bal(ws[i], t, env.self) + Floor(txs[i], committed[i], t)
  }

  lemma {:induction false} FloorsAddUp(env: Parties, ws: seq<World>, txs: seq<Tx>, committed: seq<bool>, t: Address,
                                       n: nat)
    requires n <= |txs| && |committed| == |txs| && |ws| == |txs| + 1 && EachEarns(env, ws, txs, committed, t, n)
    ensures Bal(ws[n], t, env.self) + Withdrawn(env, ws, txs, committed, t, n) >=
            Bal(ws[0], t, env.self) + Floors(txs, committed, t, n)
  {
    if n > 0 {
      FloorsAddUp(env, ws, txs, committed, t, n - 1);
      assert Bal(ws[n - 1 + 1], t, env.self) + HandedOut(env, ws[n - 1], txs[n - 1], committed[n - 1], t) >=
             Bal(ws[n - 1], t, env.self) + Floor(txs[n - 1], committed[n - 1], t);
    }
  }

  /** Over every run the contract holds, or has handed to its owner, at least the sum of its profit floors. */
  lemma RunEarnsItsFloors(env: Parties, ws: seq<World>, txs: seq<Tx>, committed: seq<bool>, t: Address, n: nat)
    requires Run(env, ws, txs, committed) && n <= |txs|
    ensures Bal(ws[n], t, env.self) + Withdrawn(env, ws, txs, committed, t, n) >=
            Bal(ws[0], t, env.self) + Floors(txs, committed, t, n)
  {
    forall i | 0 <= i < n
      ensures Bal(ws[i + 1], t, env.self) + HandedOut(env, ws[i], txs[i], committed[i], t) >=
              Bal(ws[i], t, env.self) + Floor(txs[i], committed[i], t)
    {
      RunStep(env, ws, txs, committed, i);
      StepEarnsItsFloor(env, ws[i], txs[i], committed[i], ws[i + 1], t);
    }
    FloorsAddUp(env, ws, txs, committed, t, n);
  }
}
