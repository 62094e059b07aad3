/**
 The chain as the arbitrage contract sees it: token balances, allowances and pairs, as values.
 A transaction's effect is a list of moves; whatever is a list of moves conserves every token.
 */
module Ledger {
  import opened Words

  /** Token and account. */
  type Holding = (Address, Address)

  datatype Pair = Pair(token0: Address, token1: Address, reserve0: nat, reserve1: nat)

  /** `allowances` is keyed by token, holder and spender. Absent entries are zero. */
  datatype World = World(
    balances: map<Holding, nat>,
    allowances: map<(Address, Address, Address), nat>,
    pairs: map<Address, Pair>)

  /** The contract's immutable owner, its own address and the lender it was deployed against. */
  datatype Parties = Parties(owner: Address, self: Address, lender: Address)

  datatype ArbParams = ArbParams(
    tokenIn: Address, tokenOut: Address, poolA: Address, poolB: Address,
    amountIn: U256, minProfit: U256)

  function At<K>(m: map<K, int>, k: K): int {
    if k in m then m[k] else 0
  }

  function Bal(w: World, token: Address, account: Address): nat {
    At(w.balances, (token, account))
  }

  function Allowance(w: World, token: Address, holder: Address, spender: Address): nat {
    At(w.allowances, (token, holder, spender))
  }

  /** A pair holds exactly these two tokens, in either order. */
  predicate Trades(w: World, pool: Address, tokenA: Address, tokenB: Address) {
    pool in w.pairs &&
    var p := w.pairs[pool];
    (tokenA == p.token0 && tokenB == p.token1) || (tokenA == p.token1 && tokenB == p.token0)
  }

  function Reserve(w: World, pool: Address, token: Address): nat
    requires pool in w.pairs
  {
    if token == w.pairs[pool].token0 then w.pairs[pool].reserve0 else w.pairs[pool].reserve1
  }

  /** A sound pair: two tokens, 112-bit reserves, and reserves backed by balances. */
  predicate PairSound(w: World, pool: Address)
    requires pool in w.pairs
  {
    var p := w.pairs[pool];
    && p.token0 != p.token1
    && p.reserve0 < TWO_112 && p.reserve1 < TWO_112
    && p.reserve0 <= Bal(w, p.token0, pool) && p.reserve1 <= Bal(w, p.token1, pool)
  }

  ghost predicate PairsSound(w: World) {
    forall a :: a in w.pairs ==> PairSound(w, a)
  }

  /** The contract and the pairs have approved nobody. */
  ghost predicate NoStandingApproval(env: Parties, w: World) {
    forall t: Address, h: Address, s: Address ::
      h == env.self || h in w.pairs ==> Allowance(w, t, h, s) == 0
  }

  predicate DistinctParties(env: Parties, w: World) {
    && env.self != env.lender && env.self != env.owner
    && env.self !in w.pairs && env.lender !in w.pairs
  }

  ghost predicate Valid(env: Parties, w: World) {
    DistinctParties(env, w) && PairsSound(w) && NoStandingApproval(env, w)
  }

  // ----- Effects as lists of moves -----

  datatype Move = Move(token: Address, from: Address, to: Address, amount: int)

  function MoveAt(m: Move, token: Address, account: Address): int {
    if token != m.token then 0
    else (if account == m.to then m.amount else 0) - (if account == m.from then m.amount else 0)
  }

  /** Net change of one holding. */
  function NetAt(moves: seq<Move>, token: Address, account: Address): int {
    if moves == [] then 0 else MoveAt(moves[0], token, account) + NetAt(moves[1..], token, account)
  }

  /** Every balance changed by exactly what the moves say. */
  ghost predicate Shifted(w: World, w': World, moves: seq<Move>) {
    forall t: Address, a: Address :: Bal(w', t, a) == Bal(w, t, a) + NetAt(moves, t, a)
  }

  lemma {:induction false} NetAppend(ms: seq<Move>, ns: seq<Move>, token: Address, account: Address)
    ensures NetAt(ms + ns, token, account) == NetAt(ms, token, account) + NetAt(ns, token, account)
  {
    if ms == [] {
      assert ms + ns == ns;
    } else {
      assert (ms + ns)[1..] == ms[1..] + ns;
      NetAppend(ms[1..], ns, token, account);
    }
  }

  lemma NetOne(m: Move, token: Address, account: Address)
    ensures NetAt([m], token, account) == MoveAt(m, token, account)
  {
    assert [m][1..] == [];
  }

  lemma NetTwo(m: Move, n: Move, token: Address, account: Address)
    ensures NetAt([m, n], token, account) == MoveAt(m, token, account) + MoveAt(n, token, account)
  {
    assert [m, n] == [m] + [n];
    NetAppend([m], [n], token, account);
    NetOne(m, token, account);
    NetOne(n, token, account);
  }

  lemma ShiftOne(w: World, w': World, m: Move, token: Address, account: Address)
    requires Shifted(w, w', [m])
    ensures Bal(w', token, account) == Bal(w, token, account) + MoveAt(m, token, account)
  {
    NetOne(m, token, account);
  }

  lemma ShiftTwo(w: World, w': World, m: Move, n: Move, token: Address, account: Address)
    requires Shifted(w, w', [m, n])
    ensures Bal(w', token, account) == Bal(w, token, account) + MoveAt(m, token, account) + MoveAt(n, token, account)
  {
    NetTwo(m, n, token, account);
  }

  /** Effects compose by concatenation. */
  lemma ShiftCompose(w: World, w1: World, w2: World, ms: seq<Move>, ns: seq<Move>)
    requires Shifted(w, w1, ms) && Shifted(w1, w2, ns)
    ensures Shifted(w, w2, ms + ns)
  {
    forall t: Address, a: Address
      ensures Bal(w2, t, a) == Bal(w, t, a) + NetAt(ms + ns, t, a)
    {
      NetAppend(ms, ns, t, a);
      assert Bal(w2, t, a) == Bal(w1, t, a) + NetAt(ns, t, a);
      assert Bal(w1, t, a) == Bal(w, t, a) + NetAt(ms, t, a);
    }
  }

  /** The pair's record after a sync: its reserves are its balances. */
  ghost predicate Synced(w: World, w': World, pool: Address)
    requires pool in w.pairs
  {
    && pool in w'.pairs
    && w'.pairs[pool] == w.pairs[pool].(reserve0 := Bal(w', w.pairs[pool].token0, pool),
                                        reserve1 := Bal(w', w.pairs[pool].token1, pool))
  }

  // ----- Totals -----

  ghost function SumOver(ks: set<Holding>, f: Holding -> int): int {
    if ks == {} then 0
    else
      var k :| k in ks;
      f(k) + SumOver(ks - {k}, f)
  }

  /** What each holding contributes to the total of `token`. */
  function Part(w: World, token: Address): Holding -> int {
    (k: Holding) => if k.0 == token then At(w.balances, k) else 0
  }

  /** Sum over all holders of `token`. */
  ghost function Total(w: World, token: Address): int {
    SumOver(w.balances.Keys, Part(w, token))
  }

  /** The sum may be taken starting from any holding. */
  lemma {:induction false} SumSplit(ks: set<Holding>, k: Holding, f: Holding -> int)
    requires k in ks
    ensures SumOver(ks, f) == f(k) + SumOver(ks - {k}, f)
  {
    var j :| j in ks && SumOver(ks, f) == f(j) + SumOver(ks - {j}, f);
    if j != k {
      SumSplit(ks - {j}, k, f);
      SumSplit(ks - {k}, j, f);
      assert ks - {j} - {k} == ks - {k} - {j};
    }
  }

  lemma {:induction false} SumZero(ks: set<Holding>, f: Holding -> int)
    requires forall k :: k in ks ==> f(k) == 0
    ensures SumOver(ks, f) == 0
  {
    if ks != {} {
      var k :| k in ks;
      SumSplit(ks, k, f);
      SumZero(ks - {k}, f);
    }
  }

  lemma {:induction false} SumAdd(ks: set<Holding>, f: Holding -> int, g: Holding -> int, h: Holding -> int)
    requires forall k :: k in ks ==> h(k) == f(k) + g(k)
    ensures SumOver(ks, h) == SumOver(ks, f) + SumOver(ks, g)
  {
    if ks != {} {
      var k :| k in ks;
      SumSplit(ks, k, f);
      SumSplit(ks, k, g);
      SumSplit(ks, k, h);
      SumAdd(ks - {k}, f, g, h);
    }
  }

  /** Holdings outside the ledger add nothing. */
  lemma {:induction false} SumPads(ks: set<Holding>, w: World, token: Address)
    requires w.balances.Keys <= ks
    ensures SumOver(ks, Part(w, token)) == Total(w, token)
    decreases ks
  {
    if ks != w.balances.Keys {
      var k :| k in ks && k !in w.balances.Keys;
      SumSplit(ks, k, Part(w, token));
      SumPads(ks - {k}, w, token);
    }
  }

  function MovePart(m: Move, token: Address): Holding -> int {
    (k: Holding) => if k.0 == token then MoveAt(m, k.0, k.1) else 0
  }

  function NetPart(moves: seq<Move>, token: Address): Holding -> int {
    (k: Holding) => if k.0 == token then NetAt(moves, k.0, k.1) else 0
  }

  ghost function Touched(moves: seq<Move>): set<Holding> {
    if moves == [] then {}
    else {(moves[0].token, moves[0].from), (moves[0].token, moves[0].to)} + Touched(moves[1..])
  }

  /** A move takes from one holding what it gives to another. */
  lemma SumOfMove(ks: set<Holding>, m: Move, token: Address)
    requires (m.token, m.from) in ks && (m.token, m.to) in ks
    ensures SumOver(ks, MovePart(m, token)) == 0
  {
    var f := MovePart(m, token);
    var from, to := (m.token, m.from), (m.token, m.to);
    SumSplit(ks, from, f);
    if m.from == m.to {
      SumZero(ks - {from}, f);
    } else {
      SumSplit(ks - {from}, to, f);
      SumZero(ks - {from} - {to}, f);
    }
  }

  lemma {:induction false} SumOfMoves(ks: set<Holding>, moves: seq<Move>, token: Address)
    requires Touched(moves) <= ks
    ensures SumOver(ks, NetPart(moves, token)) == 0
  {
    if moves == [] {
      SumZero(ks, NetPart(moves, token));
    } else {
      assert (moves[0].token, moves[0].from) in Touched(moves) && (moves[0].token, moves[0].to) in Touched(moves);
      SumOfMove(ks, moves[0], token);
      SumOfMoves(ks, moves[1..], token);
      SumAdd(ks, MovePart(moves[0], token), NetPart(moves[1..], token), NetPart(moves, token));
    }
  }

  /** Whatever amounts to a list of moves conserves the total of every token. */
  lemma MovesConserve(w: World, w': World, moves: seq<Move>, token: Address)
    requires Shifted(w, w', moves)
    ensures Total(w', token) == Total(w, token)
  {
    var ks := w.balances.Keys + w'.balances.Keys + Touched(moves);
    SumOfMoves(ks, moves, token);
    forall k | k in ks
      ensures Part(w', token)(k) == Part(w, token)(k) + NetPart(moves, token)(k)
    {
      assert Bal(w', k.0, k.1) == Bal(w, k.0, k.1) + NetAt(moves, k.0, k.1);
    }
    SumAdd(ks, Part(w, token), NetPart(moves, token), Part(w', token));
    SumPads(ks, w, token);
    SumPads(ks, w', token);
  }

  /** The total starts at zero and follows every single balance. */
  lemma TotalFollowsBalance(w: World, w': World, token: Address, account: Address, n: nat)
    requires w'.balances == w.balances[(token, account) := Bal(w, token, account) + n]
    ensures Total(w', token) == Total(w, token) + n
    ensures w.balances == map[] ==> Total(w, token) == 0
  {
    var ks, k := w'.balances.Keys, (token, account);
    var none := (_: Holding) => 0;
    SumPads(ks, w, token);
    SumSplit(ks, k, Part(w, token));
    SumSplit(ks, k, Part(w', token));
    SumZero(ks - {k}, none);
    SumAdd(ks - {k}, Part(w, token), none, Part(w', token));
  }
}
