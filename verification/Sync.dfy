/**
 Decoding of Sync logs and the store of pools they update: after any stream of logs, each known
 pool carries the reserves of the last well-formed log for it.
 */
module Sync {
  import opened Words

  type Byte = b: nat | b < 256

  const SYNC_TOPIC: U256 := 0x1c411e9a96e071241c2f21f7726b17ae89e3cab4c78be50e062b03a9fffbbad1

  datatype Log = Log(address: Address, topics: seq<U256>, data: seq<Byte>, blockNumber: Option<U64>)

  datatype Pool = Pool(
    poolAddress: Address, token0: Address, token1: Address,
    reserve0: U256, reserve1: U256, blockUpdated: U64)

  datatype SyncUpdate = SyncUpdate(address: Address, reserve0: U256, reserve1: U256, blockNumber: U64)

  // ----- Big-endian words -----

  function Pow256(n: nat): (r: nat)
    ensures r > 0
  {
    if n == 0 then 1 else 256 * Pow256(n - 1)
  }

  /** `U256::from_be_slice`. */
  function FromBe(bytes: seq<Byte>): (n: nat)
    ensures n < Pow256(|bytes|)
  {
    if bytes == [] then 0 else 256 * FromBe(bytes[..|bytes| - 1]) + bytes[|bytes| - 1]
  }

  /** The ABI's encoding of a word. */
  function ToBe(n: nat, width: nat): (bytes: seq<Byte>)
    ensures |bytes| == width
  {
    if width == 0 then [] else ToBe(n / 256, width - 1) + [n % 256]
  }

  /** The positional weight of bytes: each is worth 256 times the next, and the last is worth itself. */
  lemma {:induction false} FromBeWeighs(a: seq<Byte>, b: seq<Byte>)
    ensures FromBe(a + b) == FromBe(a) * Pow256(|b|) + FromBe(b)
    ensures |b| == 1 ==> FromBe(b) == b[0] && Pow256(1) == 256
  {
    if b == [] {
      assert a + b == a;
    } else {
      var init := b[..|b| - 1];
      assert (a + b)[..|a + b| - 1] == a + init;
      FromBeWeighs(a, init);
      Weight(FromBe(a), Pow256(|init|), FromBe(init), b[|b| - 1]);
      assert |b| == 1 ==> init == [];
    }
  }

  lemma Weight(a: nat, p: nat, b: nat, d: nat)
    ensures 256 * (a * p + b) + d == a * (256 * p) + (256 * b + d)
  {
  }

  lemma {:induction false} FromToBe(n: nat, width: nat)
    requires n < Pow256(width)
    ensures FromBe(ToBe(n, width)) == n
  {
    if width > 0 {
      FromToBe(n / 256, width - 1);
      assert ToBe(n, width)[..width - 1] == ToBe(n / 256, width - 1);
    }
  }

  lemma {:induction false} ToFromBe(bytes: seq<Byte>)
    ensures ToBe(FromBe(bytes), |bytes|) == bytes
  {
    if bytes != [] {
      var init := bytes[..|bytes| - 1];
      ToFromBe(init);
      assert FromBe(bytes) / 256 == FromBe(init);
    }
  }

  lemma WordIs32Bytes()
    ensures Pow256(32) == TWO_256
  {
    assert Pow256(4) == 0x1_0000_0000;
    assert Pow256(8) == TWO_64;
    assert Pow256(16) == TWO_64 * TWO_64;
    assert Pow256(20) == TWO_160;
    assert Pow256(24) == TWO_160 * 0x1_0000_0000;
    assert Pow256(28) == TWO_160 * TWO_64;
    assert Pow256(32) == TWO_256;
  }

  // ----- The code -----

  /** `decode_sync_reserves`. */
  function DecodeSyncReserves(data: seq<Byte>): Option<(U256, U256)> {
    if |data| != 64 then None
    else
      WordIs32Bytes();
      Some((FromBe(data[0..32]), FromBe(data[32..64])))
  }

  /** `decode_sync_log`. */
  function DecodeSyncLog(log: Log): Option<SyncUpdate> {
    if log.topics == [] || log.topics[0] != SYNC_TOPIC then None
    else
      var block := if log.blockNumber.Some? then log.blockNumber.value else 0;
      match DecodeSyncReserves(log.data)
      case None => None
      case Some((r0, r1)) => Some(SyncUpdate(log.address, r0, r1, block))
  }

  /** Decoding inverts the two-word encoding, and nothing but an encoding decodes. */
  lemma DecodeInvertsEncode(data: seq<Byte>, r0: U256, r1: U256)
    ensures DecodeSyncReserves(data) == Some((r0, r1)) <==> data == ToBe(r0, 32) + ToBe(r1, 32)
  {
    WordIs32Bytes();
    FromToBe(r0, 32);
    FromToBe(r1, 32);
    if data == ToBe(r0, 32) + ToBe(r1, 32) {
      assert data[0..32] == ToBe(r0, 32) && data[32..64] == ToBe(r1, 32);
    }
    if DecodeSyncReserves(data) == Some((r0, r1)) {
      ToFromBe(data[0..32]);
      ToFromBe(data[32..64]);
      assert data == data[0..32] + data[32..64];
    }
  }

  /** A log decodes exactly when it is a Sync event whose data encode the reserves, and to nothing else. */
  lemma LogDecodesIff(log: Log, u: SyncUpdate)
    ensures DecodeSyncLog(log) == Some(u) <==>
            && log.topics != []
            && log.topics[0] == 0x1c411e9a96e071241c2f21f7726b17ae89e3cab4c78be50e062b03a9fffbbad1
            && log.data == ToBe(u.reserve0, 32) + ToBe(u.reserve1, 32)
            && u.address == log.address
            && u.blockNumber == (if log.blockNumber.Some? then log.blockNumber.value else 0)
  {
    DecodeInvertsEncode(log.data, u.reserve0, u.reserve1);
  }

  /** The store. */
  class PoolStore {
    var pools: map<Address, Pool>

    constructor ()
      ensures pools == map[]
    {
      pools := map[];
    }

    /** Every pool is filed under its own address. */
    ghost predicate Filed()
      reads this
    {
      KeysMatch(pools)
    }

    /** `upsert_pool`. */
    method UpsertPool(pool: Pool)
      requires Filed()
      modifies this
      ensures Filed() && pools == old(pools)[pool.poolAddress := pool]
    {
      pools := pools[pool.poolAddress := pool];
    }

    /** `apply_sync`: reserves and block of a known pool, nothing else. */
    method ApplySync(address: Address, reserve0: U256, reserve1: U256, block: U64)
      requires Filed()
      modifies this
      ensures Filed() && pools == Applied(old(pools), SyncUpdate(address, reserve0, reserve1, block))
    {
      if address in pools {
        var pool := pools[address];
        pools := pools[address := pool.(reserve0 := reserve0, reserve1 := reserve1, blockUpdated := block)];
      }
    }

    /** `get`. */
    method Get(address: Address) returns (pool: Option<Pool>)
      ensures address in pools ==> pool == Some(pools[address])
      ensures address !in pools ==> pool == None
    {
      pool := if address in pools then Some(pools[address]) else None;
    }

    /** The stream loop of `subscribe_sync_events`, without its notifications. */
    method ApplyLogs(logs: seq<Log>)
      requires Filed()
      modifies this
      ensures Filed() && pools == Replayed(old(pools), logs)
    {
      for i := 0 to |logs|
        invariant Filed() && pools == Replayed(old(pools), logs[..i])
      {
        var decoded := DecodeSyncLog(logs[i]);
        ReplayNext(old(pools), logs[..i], logs[i]);
        assert logs[..i + 1] == logs[..i] + [logs[i]];
        if decoded.Some? {
          var u := decoded.value;
          ApplySync(u.address, u.reserve0, u.reserve1, u.blockNumber);
        }
      }
      assert logs[..|logs|] == logs;
    }
  }

  // ----- What a stream of logs amounts to -----

  ghost predicate KeysMatch(pools: map<Address, Pool>) {
    forall a :: a in pools ==> pools[a].poolAddress == a
  }

  function Applied(pools: map<Address, Pool>, u: SyncUpdate): map<Address, Pool> {
    if u.address in pools then
      var pool := pools[u.address];
      pools[u.address := pool.(reserve0 := u.reserve0, reserve1 := u.reserve1, blockUpdated := u.blockNumber)]
    else pools
  }

  /** The last well-formed Sync log for one pool. */
  function LastSync(logs: seq<Log>, a: Address): Option<SyncUpdate> {
    if logs == [] then None
    else
      var last := DecodeSyncLog(logs[|logs| - 1]);
      if last.Some? && last.value.address == a then last else LastSync(logs[..|logs| - 1], a)
  }

  /** Each known pool with the reserves and block of its last log; no other pool, no other field. */
  function Replayed(pools: map<Address, Pool>, logs: seq<Log>): map<Address, Pool> {
    map a | a in pools ::
      match LastSync(logs, a)
      case None => pools[a]
      case Some(u) => pools[a].(reserve0 := u.reserve0, reserve1 := u.reserve1, blockUpdated := u.blockNumber)
  }

  /** The replayed store, pool by pool and field by field. */
  lemma ReplayedWrittenOut(pools: map<Address, Pool>, logs: seq<Log>, a: Address)
    ensures Replayed(pools, logs).Keys == pools.Keys
    ensures a in pools ==>
              var was, now, last := pools[a], Replayed(pools, logs)[a], LastSync(logs, a);
              && now.poolAddress == was.poolAddress && now.token0 == was.token0 && now.token1 == was.token1
              && (last.None? ==> now == was)
              && (last.Some? ==> now.reserve0 == last.value.reserve0 && now.reserve1 == last.value.reserve1 &&
                                 now.blockUpdated == last.value.blockNumber)
  {
  }

  lemma ReplayNext(pools: map<Address, Pool>, logs: seq<Log>, log: Log)
    ensures Replayed(pools, logs + [log]) ==
            match DecodeSyncLog(log)
            case None => Replayed(pools, logs)
            case Some(u) => Applied(Replayed(pools, logs), u)
  {
    assert (logs + [log])[..|logs|] == logs;
    forall a | a in pools
      ensures LastSync(logs + [log], a) ==
              var last := DecodeSyncLog(log);
              if last.Some? && last.value.address == a then last else LastSync(logs, a)
    {
    }
  }

  predicate SyncsPool(log: Log, a: Address) {
    DecodeSyncLog(log).Some? && DecodeSyncLog(log).value.address == a
  }

  /** It is a log of the stream, for that pool, and no later one is. */
  lemma {:induction false} LastSyncIsLast(logs: seq<Log>, a: Address) returns (i: nat)
    ensures LastSync(logs, a).Some? ==>
              i < |logs| && SyncsPool(logs[i], a) && DecodeSyncLog(logs[i]) == LastSync(logs, a)
    ensures forall j :: 0 <= j < |logs| && (LastSync(logs, a).Some? ==> i < j) ==> !SyncsPool(logs[j], a)
  {
    i := 0;
    if logs != [] {
      var n := |logs| - 1;
      if SyncsPool(logs[n], a) {
        i := n;
      } else {
        i := LastSyncIsLast(logs[..n], a);
      }
    }
  }

  /** The last update of a stream is found in its tail, or else in its head. */
  lemma {:induction false} LastSyncAppend(xs: seq<Log>, ys: seq<Log>, a: Address)
    ensures LastSync(xs + ys, a) == if LastSync(ys, a).Some? then LastSync(ys, a) else LastSync(xs, a)
  {
    if ys == [] {
      assert xs + ys == xs;
    } else {
      assert (xs + ys)[..|xs + ys| - 1] == xs + ys[..|ys| - 1];
      LastSyncAppend(xs, ys[..|ys| - 1], a);
    }
  }

  /** A log that does not decode, or names an unknown pool, may be dropped from anywhere in a stream. */
  lemma IrrelevantLogsChangeNothing(pools: map<Address, Pool>, xs: seq<Log>, log: Log, ys: seq<Log>)
    requires DecodeSyncLog(log).None? || log.address !in pools
    ensures Replayed(pools, xs + [log] + ys) == Replayed(pools, xs + ys)
  {
    forall a | a in pools
      ensures LastSync(xs + [log] + ys, a) == LastSync(xs + ys, a)
    {
      LastSyncAppend(xs + [log], ys, a);
      LastSyncAppend(xs, [log], a);
      LastSyncAppend(xs, ys, a);
    }
  }

  /** Logs of different pools commute, anywhere in a stream. */
  lemma DifferentPoolsCommute(pools: map<Address, Pool>, xs: seq<Log>, l1: Log, l2: Log, ys: seq<Log>)
    requires l1.address != l2.address
    ensures Replayed(pools, xs + [l1, l2] + ys) == Replayed(pools, xs + [l2, l1] + ys)
  {
    forall a | a in pools
      ensures LastSync(xs + [l1, l2] + ys, a) == LastSync(xs + [l2, l1] + ys, a)
    {
      assert [l1, l2] == [l1] + [l2] && [l2, l1] == [l2] + [l1];
      LastSyncAppend([l1], [l2], a);
      LastSyncAppend([l2], [l1], a);
      LastSyncAppend(xs, [l1, l2], a);
      LastSyncAppend(xs, [l2, l1], a);
      LastSyncAppend(xs + [l1, l2], ys, a);
      LastSyncAppend(xs + [l2, l1], ys, a);
    }
  }

  /** Replaying in two parts is replaying the whole. */
  lemma ReplayComposes(pools: map<Address, Pool>, xs: seq<Log>, ys: seq<Log>)
    ensures Replayed(Replayed(pools, xs), ys) == Replayed(pools, xs + ys)
  {
    forall a | a in pools
      ensures LastSync(xs + ys, a) == if LastSync(ys, a).Some? then LastSync(ys, a) else LastSync(xs, a)
    {
      LastSyncAppend(xs, ys, a);
    }
  }
}
