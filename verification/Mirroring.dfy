/**
 How the store comes to mirror the chain: pairs emit a Sync log whenever their reserves change, so once
 the logs of a run of the chain are delivered, the scan at rest is a scan of the chain's own reserves.
 */
module Mirroring {
  import opened Words
  import opened Ledger
  import opened ArbContract
  import opened Sync
  import opened Scanner
  import opened EndToEnd
  import LedgerRuns
  import WakeUp

  /** The pair's Sync event. */
  function SyncLogOf(a: Address, p: Pair, block: U64): Log
    requires p.reserve0 < TWO_112 && p.reserve1 < TWO_112
  {
    Log(a, [SYNC_TOPIC], ToBe(p.reserve0, 32) + ToBe(p.reserve1, 32), Some(block))
  }

  lemma SyncLogDecodes(a: Address, p: Pair, block: U64)
    requires p.reserve0 < TWO_112 && p.reserve1 < TWO_112
    ensures DecodeSyncLog(SyncLogOf(a, p, block)) == Some(SyncUpdate(a, p.reserve0, p.reserve1, block))
  {
    LogDecodesIff(SyncLogOf(a, p, block), SyncUpdate(a, p.reserve0, p.reserve1, block));
  }

  function PairLog(w: World, a: Address, block: U64): seq<Log> {
    if a in w.pairs && w.pairs[a].reserve0 < TWO_112 && w.pairs[a].reserve1 < TWO_112
    then [SyncLogOf(a, w.pairs[a], block)]
    else []
  }

  /** What one transaction that led to `w'` emits: a log for each pair that swapped, in order. */
  function Emitted(tx: LedgerRuns.Tx, committed: bool, w': World, block: U64): seq<Log> {
    if !committed then []
    else if tx.ExecuteArb? then PairLog(w', tx.params.poolA, block) + PairLog(w', tx.params.poolB, block)
    else if tx.PairTrade? then PairLog(w', tx.pool, block)
    else []
  }

  /** A transaction as it was included, the state it left, and its block. */
  datatype Included = Included(tx: LedgerRuns.Tx, committed: bool, after: World, block: U64)

  /** The logs of the first `m` transactions of a run. */
  function Emissions(chain: seq<Included>, m: nat): seq<Log>
    requires m <= |chain|
  {
    if m == 0 then []
    else
      var last := chain[m - 1];
      Emissions(chain, m - 1) + Emitted(last.tx, last.committed, last.after, last.block)
  }

  /** The state after the first `m` transactions. */
  function StateAt(start: World, chain: seq<Included>, m: nat): World
    requires m <= |chain|
  {
    if m == 0 then start else chain[m - 1].after
  }

  /** A run of the chain from `start`. */
  ghost predicate ChainRun(env: Parties, start: World, chain: seq<Included>) {
    LedgerRuns.Run(env,
                   seq(|chain| + 1, i requires 0 <= i <= |chain| => StateAt(start, chain, i)),
                   seq(|chain|, i requires 0 <= i < |chain| => chain[i].tx),
                   seq(|chain|, i requires 0 <= i < |chain| => chain[i].committed))
  }

  /** At every point of a run the state is valid, and the next transaction is a step. */
  lemma ChainStep(env: Parties, start: World, chain: seq<Included>, i: nat)
    requires ChainRun(env, start, chain) && i <= |chain|
    ensures Valid(env, StateAt(start, chain, i))
    ensures i < |chain| ==>
              LedgerRuns.Step(env, StateAt(start, chain, i), chain[i].tx, chain[i].committed, chain[i].after)
  {
    var ws := seq(|chain| + 1, i requires 0 <= i <= |chain| => StateAt(start, chain, i));
    var txs := seq(|chain|, i requires 0 <= i < |chain| => chain[i].tx);
    var committed := seq(|chain|, i requires 0 <= i < |chain| => chain[i].committed);
    LedgerRuns.RunIsSafe(env, ws, txs, committed, i);
    if i < |chain| {
      LedgerRuns.RunStep(env, ws, txs, committed, i);
    }
  }

  /** A pair's record after some logs: as before when none is for it, else with the reserves of the last. */
  predicate Tracks(p: Pair, last: Option<SyncUpdate>, p': Pair) {
    match last
    case None => p' == p
    case Some(u) => p' == p.(reserve0 := u.reserve0, reserve1 := u.reserve1)
  }

  lemma PairLogLast(w: World, pool: Address, block: U64, a: Address)
    requires PairsSound(w)
    ensures LastSync(PairLog(w, pool, block), a) ==
            if a == pool && a in w.pairs
            then Some(SyncUpdate(a, w.pairs[a].reserve0, w.pairs[a].reserve1, block))
            else None
  {
    if pool in w.pairs {
      assert PairSound(w, pool);
      SyncLogDecodes(pool, w.pairs[pool], block);
      assert PairLog(w, pool, block)[..0] == [];
    }
  }

  lemma StepTracks(env: Parties, w: World, tx: LedgerRuns.Tx, committed: bool, w': World, block: U64, a: Address)
    requires Valid(env, w) && LedgerRuns.Step(env, w, tx, committed, w') && a in w.pairs
    ensures a in w'.pairs && Tracks(w.pairs[a], LastSync(Emitted(tx, committed, w', block), a), w'.pairs[a])
  {
    LedgerRuns.StepKeepsValid(env, w, tx, committed, w');
    if committed && tx.ExecuteArb? {
      var p := tx.params;
      PairLogLast(w', p.poolA, block, a);
      PairLogLast(w', p.poolB, block, a);
      LastSyncAppend(PairLog(w', p.poolA, block), PairLog(w', p.poolB, block), a);
    } else if committed && tx.PairTrade? {
      PairLogLast(w', tx.pool, block, a);
    }
  }

  /** At every point of every run, a pair's reserves are those of the last log emitted for it. */
  lemma {:induction false} RunTracks(env: Parties, start: World, chain: seq<Included>, m: nat, a: Address)
    requires ChainRun(env, start, chain) && m <= |chain| && a in start.pairs
    ensures var w := StateAt(start, chain, m);
            a in w.pairs && Tracks(start.pairs[a], LastSync(Emissions(chain, m), a), w.pairs[a])
  {
    if m > 0 {
      var w, last := StateAt(start, chain, m - 1), chain[m - 1];
      RunTracks(env, start, chain, m - 1, a);
      TransactionTracks(env, start, chain, m - 1, a);
      TracksAppend(start.pairs[a], Emissions(chain, m - 1), w.pairs[a],
                   Emitted(last.tx, last.committed, last.after, last.block), last.after.pairs[a], a);
    }
  }

  lemma TransactionTracks(env: Parties, start: World, chain: seq<Included>, i: nat, a: Address)
    requires ChainRun(env, start, chain) && i < |chain| && a in StateAt(start, chain, i).pairs
    ensures var w, next := StateAt(start, chain, i), chain[i];
            && a in next.after.pairs
            && Tracks(w.pairs[a], LastSync(Emitted(next.tx, next.committed, next.after, next.block), a),
                      next.after.pairs[a])
  {
    ChainStep(env, start, chain, i);
    StepTracks(env, StateAt(start, chain, i), chain[i].tx, chain[i].committed, chain[i].after, chain[i].block, a);
  }

  lemma TracksAppend(p: Pair, xs: seq<Log>, p1: Pair, ys: seq<Log>, p2: Pair, a: Address)
    requires Tracks(p, LastSync(xs, a), p1) && Tracks(p1, LastSync(ys, a), p2)
    ensures Tracks(p, LastSync(xs + ys, a), p2)
  {
    LastSyncAppend(xs, ys, a);
  }

  /** The subscriber has caught up: for each pool, the last log delivered is the last one emitted. */
  ghost predicate CaughtUp(store: map<Address, Pool>, delivered: seq<Log>, emitted: seq<Log>) {
    forall a :: a in store ==> LastSync(delivered, a) == LastSync(emitted, a)
  }

  /** Then the store that the logs make of an initial one without reserves mirrors the chain. */
  lemma ReplayMirrors(env: Parties, start: World, chain: seq<Included>, m: nat, store: map<Address, Pool>,
                      delivered: seq<Log>)
    requires ChainRun(env, start, chain) && m <= |chain|
    requires TokensMatch(store, start) && forall a :: a in store ==> Unseen(store[a])
    requires CaughtUp(store, delivered, Emissions(chain, m))
    ensures Mirrors(Replayed(store, delivered), StateAt(start, chain, m))
  {
    var w := StateAt(start, chain, m);
    forall a | a in store
      ensures a in w.pairs && Tracks(start.pairs[a], LastSync(delivered, a), w.pairs[a])
    {
      RunTracks(env, start, chain, m, a);
    }
  }

  /**
   From the chain through the logs and the wake-up protocol back to the chain: whenever subscriber and
   scanner are at rest and have caught up with a run of the chain, every opportunity of the last scan
   passes the contract's guards and, sent now, commits exactly when the lender is liquid, the pairs have
   room and its profit exceeds the premium.
   */
  lemma LastScanCommitsIff(env: Parties, start: World, chain: seq<Included>, m: nat,
                           poolPairs: seq<(Address, Address)>, ss: seq<WakeUp.State>, acts: seq<WakeUp.Action>, n: nat,
                           o: Opportunity, premium: U256)
    requires ChainRun(env, start, chain) && m <= |chain|
    requires WakeUp.Run(poolPairs, ss, acts) && n <= |acts| && WakeUp.Quiescent(ss[n])
    requires KeysMatch(ss[0].store) && TokensMatch(ss[0].store, start) && DistinctPairs(poolPairs)
    requires CaughtUp(ss[0].store, WakeUp.LogsOf(acts, n), Emissions(chain, m))
    requires o in ss[n].lastScan
    ensures var w, store := StateAt(start, chain, m), ss[n].store;
            && PairsSound(w) && PassesGuards(w, ParamsFor(o)) && Backed(store, ss[n].price, o)
            && (ArbCommits(env, w, env.owner, ParamsFor(o), premium) <==>
                && RoomFor(env, w, ParamsFor(o))
                && RouteProfit(store[o.poolA], store[o.poolB]) >= premium + 1)
  {
    var w, store := StateAt(start, chain, m), ss[n].store;
    WakeUp.StoreIsReplay(poolPairs, ss, acts, n);
    ReplayMirrors(env, start, chain, m, ss[0].store, WakeUp.LogsOf(acts, n));
    ChainStep(env, start, chain, m);
    MirrorFits(store, w);
    WakeUp.NoLostWakeUp(poolPairs, ss, acts, n);
    ScannedPassesGuards(w, store, poolPairs, ss[n].price, o);
    ScannedOpportunityCommitsIff(env, w, store, poolPairs, ss[n].price, o, premium);
  }
}
