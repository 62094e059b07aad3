# ZELVEX: a verified model of the arbitrage core

ZELVEX watches pairs of Uniswap V2 pools, finds two-pool arbitrage off chain, and executes it on chain
through an Aave flash loan. This project models its hard parts in Dafny and proves what they promise.
`dafny verify dfyconfig.toml` checks everything.

| file | what it models |
|---|---|
| `Words.dfy` | machine words: wrapping (Rust) and checked (Solidity) 256-bit arithmetic |
| `Amm.dfy`, `AmmLaws.dfy` | the swap formula in its three forms, and its laws on one and on two pools |
| `Ledger.dfy`, `ArbContract.dfy` | token balances, allowances and pairs; `ZelvexArb` as methods that change them step by step |
| `LedgerRuns.dfy` | every run of the chain: the contract's transactions interleaved with everybody else's |
| `Sync.dfy`, `WakeUp.dfy` | Sync logs, the pool store, and the wake-up protocol between subscriber and scanner |
| `PairEnumeration.dfy`, `Scanner.dfy` | pair enumeration and the scan |
| `EndToEnd.dfy`, `Mirroring.dfy` | from a scanned opportunity to its transaction; from the chain's Sync logs to the store |
| `GasOracle.dfy` | the gas sample rings and the recommended fee |
| `Replay.dfy` | the live decision, the recorded rows and the backtest |
| `LoginLimiter.dfy`, `TradeCursor.dfy`, `WeiText.dfy` | the API's rate limiter, trade push and wei printer |

Main results:

- **On chain and off chain agree.** `executeArb` commits if and only if the request is well formed, the
  lender is liquid, both pairs have room for their input below 2^112, and `calculate_profit` on the pairs'
  reserves finds at least premium plus floor. It then changes exactly the balances of one table.
- **Runs are safe.** Over every interleaving with other parties' transfers, approvals and fee-checked
  trades: each token is conserved, no approval of the contract stands between transactions, pair products
  never fall, and the contract's funds leave only by the owner's withdrawal.
- **All the way round.** When subscriber and scanner are at rest and have caught up with the Sync logs of any run
  of the chain, every opportunity of the last scan passes the contract's guards, and its transaction commits
  exactly when the lender is liquid, the pairs have room and its profit exceeds the premium. The guards need
  only the tokens to be right: they are passed on stale reserves too.
- **No lost wake-up.** Whenever subscriber and scanner come to rest, the last scan is the scan of the store
  that all delivered logs make, although notifications are dropped when the channel is full; and once logs
  stop they do come to rest.
- **The scan is exact.** The two directions of a pair are never both profitable, so the comparison of two
  opportunities is dead code and the result is the list of pairs with one profitable direction.
- **Replay agrees with live.** Any page of any recorded run, replayed at another threshold, disagrees exactly
  on the rows whose net profit the threshold passed; at its own threshold, on none.
- The gas oracle, the limiter, the trade cursor and the wei printer each equal a definition on the whole
  history (or on all amounts).

Three promises hold only under a condition:

- The Rust swap formula wraps and can divide by zero. It panics exactly when the true denominator is a
  multiple of 2^256, and otherwise divides the reduced numerator by the reduced denominator
  (`QuoteIsModular`); the scan panics exactly when a configured pair's reserves bring that about
  (`ScanCrashesIff`), as those of `CRASH_STORE` do. It never does on 112-bit reserves, and wherever the
  contract's checked form does not revert the two forms are equal.
- A reported spread can be under 60 basis points at a floored lower price (in units of 10^-18) exactly when
  that price is zero or its least profitable counterpart, after the two fee floors, is less than 0.6 % above
  it (`Below60Iff`). This never happens from 27,170 up and does at 27,169; a zero price reports zero.
- A round on one pool always loses if the pool holds just its reserves (`SamePoolNeedsSurplus`). With surplus
  tokens in the pool it succeeds exactly as `OperationWorks` says, and can pay (`SurplusCanPay`), so the
  refusal of equal pools in `executeArb` is not redundant.

How the outside is taken:

- A pair accepts a swap by the fee-adjusted product check of section 3.2.1 of the Uniswap v2 Core
  whitepaper, on balances that may exceed its reserves, and then syncs its reserves to its balances, which
  must fit 112 bits. Tokens follow EIP-20 and revert on failure. The lender transfers, calls back, pulls
  loan plus an arbitrary premium by allowance, or everything reverts. (The contract's constant for a
  five-basis-point lender fee, contracts/ZelvexArb.sol:44, is used nowhere.)
- Dollar and gwei amounts are reals. Clocks, prices, logs, gas samples, block numbers, row ids and the
  outcomes of sends, executions and insertions are arbitrary inputs.
- A no-go reason is the pair of amounts that its text shows.

## Model

| member | source | states |
|---|---|---|
| `Amm.U256Pow10` | zelvex-core/src/amm.rs:37-43 | the loop of wrapping multiplications computes 10^exp modulo 2^256 |
| `Amm.PriceScaleIsPow10` | zelvex-core/src/amm.rs:17 | the price scale, exponent 18, does not wrap |
| `Amm.OutputIsLargestPassing` | contracts/ZelvexArb.sol:142-177 | the formula's output is below the reserve, and an amount passes the pair's fee-adjusted check if and only if it is at most that output |
| `AmmLaws.CheckedFormIsExactAndAgrees` | contracts/ZelvexArb.sol:167-177 | wherever the contract's form does not revert it is the exact quotient, and the Rust form equals it, for all 256-bit inputs |
| `AmmLaws.CheckedFormRevertsIff` | contracts/ZelvexArb.sol:167-177 | the contract's form reverts exactly on an empty reserve or when numerator or denominator overflows |
| `AmmLaws.FormsCoincide` | zelvex-core/src/amm.rs:3-11 | for 112-bit input and nonzero reserves the wrapping, checked and exact forms are equal and below the reserve |
| `AmmLaws.QuoteIsModular` | zelvex-core/src/amm.rs:3-11 | on all 256-bit inputs: `None` on an empty reserve, a panic exactly when the true denominator is a multiple of 2^256, else the reduced numerator over the reduced denominator |
| `AmmLaws.ProfitPanicsIff` | zelvex-core/src/amm.rs:21-35 | the two-hop profit panics if and only if the first denominator is lost, or the second one is for the amount the first hop quotes, on nonzero reserves |
| `AmmLaws.WrappedDenominatorPanics` | zelvex-core/src/amm.rs:7-10 | one ether against the reserve 2^253 - 997·10^15 panics, where the contract reverts |
| `AmmLaws.ProfitIsExact` | zelvex-core/src/amm.rs:21-35 | over both hops the profit is `Some` of the exact profit when positive, `None` otherwise, and never a panic, on 112-bit reserves |
| `AmmLaws.SpotPriceIsExact` | zelvex-core/src/amm.rs:13-19 | spot prices of 112-bit reserves do not wrap |
| `AmmLaws.SpotPriceIsModular` | zelvex-core/src/amm.rs:13-19 | the spot price on all 256-bit reserves |
| `AmmLaws.SplittingTwoNeverPays` | zelvex-core/src/amm.rs:3-11 | two successive swaps yield at most one swap of the sum, floors included |
| `AmmLaws.SplittingNeverPays` | zelvex-core/src/amm.rs:3-11 | so does any list of successive swaps, with reserves updated after each |
| `AmmLaws.SwapAllDrains` | zelvex-core/src/amm.rs:3-11 | what a list of swaps yields is exactly what the pool loses, and the pool gains exactly what was put in |
| `AmmLaws.RoundTripLoses` | contracts/ZelvexArb.sol:71 | swapping out and back on the same pool returns strictly less than was put in, which is why pools must differ |
| `AmmLaws.ProductNeverFalls` | contracts/ZelvexArb.sol:142-177 | the reserve product never decreases over any run of swaps in either direction |
| `AmmLaws.NoArbitrageWithinOnePool` | contracts/ZelvexArb.sol:71 | no run of swaps on one pool lowers one reserve without raising the other |
| `AmmLaws.ProfitForcesPriceGap` | zelvex-core/src/amm.rs:21-35 | a profitable round forces 10^6 times the in-reserves' product below 997^2 times the out-reserves' product |
| `AmmLaws.NeverBothProfitable` | zelvex-core/src/scanner.rs:179-193 | the two directions of a pair of pools are never both profitable, for any inputs |
| `Ledger.ShiftCompose` | contracts/ZelvexArb.sol:107-111 | effects of successive steps compose |
| `Ledger.MovesConserve` | contracts/ZelvexArb.sol:34-38 | whatever amounts to a list of moves conserves the total of every token |
| `Ledger.TotalFollowsBalance` | contracts/ZelvexArb.sol:34-38 | a token's total is zero on an empty ledger and follows every single balance |
| `ArbContract.Chain.Transfer` | contracts/ZelvexArb.sol:35 | succeeds exactly on sufficient balance and moves exactly that amount |
| `ArbContract.Chain.Approve` | contracts/ZelvexArb.sol:36 | sets exactly one allowance |
| `ArbContract.Chain.TransferFrom` | contracts/ZelvexArb.sol:75-81 | the lender's pull: succeeds exactly on sufficient allowance and balance, and uses up the allowance |
| `ArbContract.Chain.PairSwap` | contracts/ZelvexArb.sol:21-26 | succeeds exactly when the pair accepts; pays out, syncs reserves to balances, touches no other pair |
| `ArbContract.Chain.ValidatePool` | contracts/ZelvexArb.sol:129-140 | accepts exactly pairs of these two tokens, in either order |
| `ArbContract.Chain.GetAmountOut` | contracts/ZelvexArb.sol:167-177 | the exact output, strictly below the reserve; reverts on empty reserves, never on 112-bit input |
| `ArbContract.AcceptsIffRoom` | contracts/ZelvexArb.sol:155-164 | once the input is sent, the pair accepts the formula's output if and only if its balances still fit 112 bits |
| `ArbContract.Chain.Swap` | contracts/ZelvexArb.sol:142-165 | succeeds exactly when the output is positive, the contract holds the input and the pair has room; moves input and output, syncs that pair, keeps all pairs sound |
| `ArbContract.Chain.SwapRound` | contracts/ZelvexArb.sol:107-111 | both swaps together, on two pools or on one, judged on the state before the first |
| `ArbContract.SecondSwapFrame` | contracts/ZelvexArb.sol:107-111 | what the first swap leaves for the second: an untouched other pool, or the same pool with its reserves synced to its balances |
| `ArbContract.SamePoolNeedsSurplus` | contracts/ZelvexArb.sol:71 | a profitable round on one pool needs tokens in the pool beyond its reserves |
| `ArbContract.SurplusCanPay` | contracts/ZelvexArb.sol:71 | a named pool with surplus tokens on which such a round succeeds |
| `ArbContract.Chain.TradeForProfit` | contracts/ZelvexArb.sol:103-118 | succeeds exactly when both pools hold the two tokens, both swaps work and enough comes back |
| `ArbContract.Chain.ExecuteOperation` | contracts/ZelvexArb.sol:86-124 | for every caller, initiator and parameters: succeeds exactly for the lender answering the contract's own request with matching asset and amount, valid pools and enough returned; approves exactly loan plus premium |
| `ArbContract.Chain.FlashLoanSimple` | contracts/ZelvexArb.sol:75-81 | goes through exactly when the loan works, and settles |
| `ArbContract.ArbNet` | contracts/ZelvexArb.sol:86-124 | the six transfers of an arbitrage net out to its table of balance changes |
| `ArbContract.ProfitDecides` | contracts/ZelvexArb.sol:113-118 | the loan goes through if and only if the off-chain profit covers premium and floor |
| `ArbContract.ArbCommitsIff` | contracts/ZelvexArb.sol:57-118 | the whole commit condition written out: the owner, a positive floor, different pools and tokens, both pairs of just these tokens, a liquid lender, and, with 997 and 1000 and 2^112 as numbers, quotes that return loan, premium and floor and balances that fit |
| `ArbContract.Chain.ExecuteArb` | contracts/ZelvexArb.sol:69-124 | commits if and only if the owner's request is well formed and `calculate_profit` reports at least premium plus floor; then every balance, allowance and reserve is as the table says; otherwise nothing changes |
| `ArbContract.Chain.StrayCallback` | contracts/ZelvexArb.sol:93-95 | a callback from anybody else, or for anybody else's loan, reverts |
| `ArbContract.Chain.StrayLoan` | contracts/ZelvexArb.sol:95 | a loan taken out by others in the contract's name reverts |
| `ArbContract.Chain.Withdraw` | contracts/ZelvexArb.sol:182-186 | commits exactly for the owner on a positive balance, and moves all of it to the owner |
| `LedgerRuns.Apply` | contracts/ZelvexArb.sol:69-186 | every transaction carried out on the chain, of the contract or of others, is a step of the run relation: committed exactly when it can be, with its effect, and else without a trace |
| `LedgerRuns.ApplyAll` | contracts/ZelvexArb.sol:69-186 | so any list of transactions carried out one after the other is a run |
| `LedgerRuns.ArbGain` | contracts/ZelvexArb.sol:113-118 | a commit raises the contract's `tokenIn` by exactly the off-chain profit less the premium, at least the floor, leaves its other tokens alone, and pays the lender the premium |
| `LedgerRuns.StepKeepsValid` | contracts/ZelvexArb.sol:69-124 | every transaction of anybody keeps pairs sound and leaves no approval of the contract standing |
| `LedgerRuns.StepProtectsFunds` | contracts/ZelvexArb.sol:182-186 | a transaction lowers a balance of the contract only as the owner's withdrawal, and the owner receives it |
| `LedgerRuns.StepIsAuthorized` | contracts/ZelvexArb.sol:57-72 | a committed arbitrage was the owner's, with a positive floor, different pools and different tokens; a withdrawal commits exactly for the owner on a positive balance; stray callbacks and loans never do |
| `LedgerRuns.StepGrowsProducts` | contracts/ZelvexArb.sol:142-165 | no transaction lowers any pair's reserve product |
| `LedgerRuns.StepConserves` | contracts/ZelvexArb.sol:69-124 | every transaction conserves every token's total |
| `LedgerRuns.RunIsSafe` | contracts/ZelvexArb.sol:57-124 | at every point of every run: the invariant, every total, every product, funds falling only by the owner's withdrawal, and every committed arbitrage and withdrawal the owner's, the former within the guards |
| `LedgerRuns.RunEarnsItsFloors` | contracts/ZelvexArb.sol:113-118 | over every run the contract holds, or has handed to its owner, its initial funds plus the sum of its committed floors |
| `Sync.DecodeInvertsEncode` | zelvex-core/src/sync.rs:9-16 | data decode to two reserves if and only if they are the two-word big-endian encoding of them |
| `Sync.FromBeWeighs` | zelvex-core/src/sync.rs:13-14 | bytes before others weigh 256 times as much per place, and a single byte is its value: big-endian |
| `Sync.LogDecodesIff` | zelvex-core/src/sync.rs:18-29 | a log decodes exactly when its first topic is the Sync event's and its data encode the two reserves; address and block are the log's, block 0 when absent |
| `Sync.PoolStore.UpsertPool` | zelvex-core/src/sync.rs:43-45 | files the pool under its own address and keeps that invariant |
| `Sync.PoolStore.ApplySync` | zelvex-core/src/sync.rs:47-59 | sets reserves and block of a known pool, nothing else |
| `Sync.PoolStore.Get` | zelvex-core/src/sync.rs:61-63 | the pool under that address, if any |
| `Sync.PoolStore.ApplyLogs` | zelvex-core/src/sync_subscriber.rs:34-42 | after any stream each known pool has reserves and block of its last well-formed log; tokens and keys never change |
| `Sync.ReplayedWrittenOut` | zelvex-core/src/sync.rs:47-59 | after a stream each known pool has its address and tokens, and reserves and block of its last log or as before; no pool comes or goes |
| `Sync.LastSyncIsLast` | zelvex-core/src/sync.rs:18-29 | that log is in the stream, is for that pool, and no later one is |
| `Sync.IrrelevantLogsChangeNothing` | zelvex-core/src/sync_subscriber.rs:35-37 | a malformed or unknown-pool log can be dropped from anywhere in a stream |
| `Sync.DifferentPoolsCommute` | zelvex-core/src/sync.rs:47-59 | neighbouring logs of different pools commute anywhere in a stream |
| `Sync.ReplayComposes` | zelvex-core/src/sync_subscriber.rs:34-42 | replaying in two parts is replaying the whole |
| `WakeUp.RunInvariant` | zelvex-core/src/scanner.rs:80-100 | at every point of every interleaving the last snapshot saw the current store, or a token is queued, or the subscriber is about to notify, or the scanner is before its snapshot |
| `WakeUp.StoreIsReplay` | zelvex-core/src/sync_subscriber.rs:34-44 | at every point the store is what the delivered logs make of the initial one |
| `WakeUp.NoLostWakeUp` | zelvex-core/src/sync_subscriber.rs:34-44 | at quiescence the last scan is the scan of that store |
| `WakeUp.InternalStepsRunDown` | zelvex-core/src/scanner.rs:80-100 | every step except a log's arrival uses up work, and on 112-bit reserves one is possible unless at rest |
| `WakeUp.QuietRunsAreShort` | zelvex-core/src/scanner.rs:80-100 | so without new logs a run makes at most that many more steps |
| `PairEnumeration.UniqueAddresses` | zelvex-bin/src/main.rs:203-212 | exactly the given addresses, each once, in order of first occurrence |
| `PairEnumeration.Row` | zelvex-bin/src/main.rs:51-53 | one pool paired with every later one, in order |
| `PairEnumeration.BuildPairs` | zelvex-bin/src/main.rs:48-54 | every unordered pair of distinct configured pools exactly once, n(n-1)/2 in all |
| `Scanner.RouteIsShared` | zelvex-core/src/scanner.rs:199-218 | the token picked is the stable side of a shared route, and one is found whenever there is one |
| `Scanner.RouteWrittenOut` | zelvex-core/src/scanner.rs:199-218 | a stable token is found exactly for two pools of the same ordered tokens, one of them WETH and the other this USDC or DAI, by their addresses |
| `Scanner.ProfitUsd` | zelvex-core/src/scanner.rs:239 | the dollars times 10^18 are the profit in wei times the price |
| `Scanner.BetterIsHigher` | zelvex-core/src/scanner.rs:182-193 | on any reserves the higher profit is kept, the first direction on a tie, and one opportunity rather than none |
| `Scanner.BuildIsExact` | zelvex-core/src/scanner.rs:220-258 | for 112-bit reserves and a positive price an opportunity is built exactly for a profitable direction, with the exact profit and spread |
| `Scanner.SpreadIsExact` | zelvex-core/src/scanner.rs:274-287 | the spread does not wrap on prices of 112-bit reserves, and saturates at the signed 64-bit maximum |
| `Scanner.SpreadIsModular` | zelvex-core/src/scanner.rs:274-287 | the spread on all 256-bit prices, symmetric, zero for a zero price, saturating at the signed 64-bit maximum |
| `Scanner.ProfitableIsDearer` | zelvex-core/src/scanner.rs:234-246 | every profitable direction buys where the floored price is strictly higher, at least the least price that two fee floors allow |
| `Scanner.SpreadAtLeastLeast` | zelvex-core/src/scanner.rs:274-287 | any reported spread is at least that of the least higher price; a zero lower price reports zero |
| `Scanner.LeastSpreadIsReported` | zelvex-core/src/scanner.rs:274-287 | for every lower price under 27,170 two named pools report exactly that least spread |
| `Scanner.Below60Iff` | zelvex-core/src/scanner.rs:274-287 | a profitable pair with this lower price that reports under 60 basis points exists if and only if the price is zero or its least counterpart is less than 0.6 % above it |
| `Scanner.Below60StopsAt27170` | zelvex-core/src/scanner.rs:274-287 | that condition fails for every price from 27,170 up and holds at 27,169 |
| `Scanner.ReportedSpreadAtLeast60` | zelvex-core/src/scanner.rs:234-246 | a reported spread is at least 60 basis points when the lower floored price is at least 27,170 |
| `Scanner.DirectionsAreExact` | zelvex-core/src/scanner.rs:179-193 | never two opportunities for one pair; the choice is the profitable direction |
| `Scanner.BuildCrashesIff` | zelvex-core/src/scanner.rs:220-258 | one direction panics if and only if its pools' reserves are nonzero and lose a denominator |
| `Scanner.ScanCrashesIff` | zelvex-core/src/scanner.rs:152-197 | the scan panics if and only if some configured pair of pools with a shared route has reserves that lose a denominator in one of its directions, whatever the price |
| `Scanner.ScanCanCrash` | zelvex-core/src/scanner.rs:152-197 | a store of two named pools on which the scan panics |
| `Scanner.ScanIsExact` | zelvex-core/src/scanner.rs:152-197 | on 112-bit reserves the scan never panics and is the order-preserving list of pairs with a profitable direction, empty without a positive price |
| `Scanner.ScanOneIs` | zelvex-core/src/scanner.rs:159-193 | one opportunity, in the profitable direction, for a pair of known pools with a shared route and a profitable direction at a positive price; none for any other |
| `Scanner.WorthAtIff` | zelvex-core/src/scanner.rs:159-193 | the listed positions are exactly those of such pairs |
| `Scanner.ScanListsExactly` | zelvex-core/src/scanner.rs:152-197 | the list has exactly their opportunities, one each, in increasing order of position |
| `Scanner.ScanPairs` | zelvex-core/src/scanner.rs:152-197 | the loop computes that scan, for every store |
| `Scanner.EmptyPoolsScanEmpty` | zelvex-core/src/scanner.rs:230-232 | pools that have seen no log report nothing |
| `EndToEnd.ScannedIsBacked` | zelvex-core/src/scanner.rs:234-257 | every scanned opportunity names two different pools of the store that share its route, in the profitable direction, with one ether in, its dollars times 10^18 equal to the exact profit in wei times the price, no gas yet, and the spread of the two prices |
| `EndToEnd.ScannedPassesGuards` | contracts/ZelvexArb.sol:70-72 | for any reserves, stale or not, and any 256-bit values: every opportunity the scan returns passes the pools-differ, tokens-differ and pool-composition guards, if the store's tokens are the chain's |
| `EndToEnd.ScannedOpportunityCommitsIff` | zelvex-core/src/scanner.rs:111-121 | if the store mirrors the chain, a scanned opportunity commits if and only if the lender is liquid, the pairs have room, and the wei behind the reported dollars exceed the premium |
| `Mirroring.RunTracks` | zelvex-core/src/sync.rs:18-29 | over every run of the chain a pair's reserves are those of the last Sync log emitted for it |
| `Mirroring.ReplayMirrors` | zelvex-core/src/sync_subscriber.rs:34-42 | once caught up, the store that the logs make of the initial one mirrors the chain |
| `Mirroring.LastScanCommitsIff` | zelvex-core/src/scanner.rs:80-121 | at rest and caught up, every opportunity of the last scan passes the guards and commits if and only if the lender is liquid, the pairs have room and its profit exceeds the premium |
| `GasOracle.Saturate64` | zelvex-gas/src/lib.rs:83-89 | equal below 2^64, the maximum above |
| `GasOracle.PercentileIndex` | zelvex-gas/src/lib.rs:59 | the nearest integer to 0.9(m-1), halves rounded up, always a valid index |
| `GasOracle.RankIsUnique` | zelvex-gas/src/lib.rs:58-60 | at most one value has a given rank |
| `GasOracle.SortGivesRank` | zelvex-gas/src/lib.rs:58-60 | any sorted rearrangement has the value of rank k at index k, so the choice of sort does not matter |
| `GasOracle.SortSamples` | zelvex-gas/src/lib.rs:58 | sorted and a permutation |
| `GasOracle.RecommendedIsUnique` | zelvex-gas/src/lib.rs:47-61 | a history determines its recommended fee |
| `GasOracle.RecommendedIsSortedElement` | zelvex-gas/src/lib.rs:47-61 | the recommended fee is the element at index (9(m-1)+5)/10 of any sorted rearrangement of the last m = min(n, 20) samples, capped at 2^64-1 |
| `GasOracle.RecommendedIsMonotone` | zelvex-gas/src/lib.rs:47-61 | raising any samples never lowers the recommended fee |
| `GasOracle.Oracle.PushSample` | zelvex-gas/src/lib.rs:28-41 | appends to the history; both rings are its last min(n, 100) samples, in lockstep |
| `GasOracle.Oracle.RecommendedPriorityFee` | zelvex-gas/src/lib.rs:47-61 | the saturated order statistic at index round(0.9(m-1)) of the last m = min(n, 20) samples of the whole history; zero before the first |
| `GasOracle.Oracle.CurrentGasEstimate` | zelvex-gas/src/lib.rs:63-72 | the last base fee, that fee, and their sum saturating at 128 bits, all in gwei; zeros before the first sample |
| `Replay.GasCostsAgree` | zelvex-gas/src/lib.rs:74-80 | the gas cost of scanner and decision, from gwei, is the oracle's own estimate, from wei, at 200,000 units |
| `Replay.GasCostUsd` | zelvex-sim/src/lib.rs:11-13 | the cost times 10^9 is 200,000 times gwei times price |
| `Replay.EvaluateIs` | zelvex-sim/src/lib.rs:11-28 | go exactly above the threshold, with net profit and gas cost; otherwise the reason holds net profit and threshold |
| `Replay.Recorder.Record` | zelvex-core/src/scanner.rs:93-146 | appends the rows of the opportunities before the first failure, hands exactly the go opportunities to the executor, and stays alive exactly when nothing failed |
| `Replay.StoredUntilFailure` | zelvex-core/src/scanner.rs:111-145 | opportunities are stored up to the first whose insertion fails, or whose block query fails when it is to be executed |
| `Replay.RowsWrittenOut` | zelvex-core/src/scanner.rs:102-145 | every field of every stored row: amounts, spread, decision, reason, and the trade of a go row as the executor returned it |
| `Replay.HandedOverExactly` | zelvex-core/src/scanner.rs:111-121 | the executor gets, in order, exactly the opportunities whose profit less the gas cost exceeds the threshold, each with that gas cost, up to and including one whose insertion then failed |
| `Replay.CompletedIsFirstFailure` | zelvex-core/src/scanner.rs:111-145 | the number of stored rows is the position of the first failed block query or insertion |
| `Replay.RecordAll` | zelvex-core/src/scanner.rs:80-147 | rounds recorded one after the other until one fails leave exactly the run's rows, executions and state |
| `Replay.RunAliveIff` | zelvex-core/src/scanner.rs:80-147 | the scanner is alive exactly while every round has stored all it found |
| `Replay.RunKeepsRound` | zelvex-core/src/scanner.rs:80-147 | every round reached leaves its rows and executions in the run, after those before it |
| `Replay.RunAddsOnlyRound` | zelvex-core/src/scanner.rs:80-147 | and no others; a dead scanner adds nothing |
| `Replay.OnlyGoIsExecuted` | zelvex-core/src/scanner.rs:111-121 | over every run only opportunities whose net profit exceeds the threshold reach the executor |
| `Replay.RunRows` | zelvex-core/src/scanner.rs:102-145 | every row of every run holds the verdict and reason of the threshold on its own stored amounts, and a trade only when it is go |
| `Replay.RunBacktest` | zelvex-sim/src/backtest.rs:38-97 | matched plus mismatched is total, the mismatches are those of the table, the rate is 100 on no rows, and the sums are over rows recorded as go |
| `Replay.OneRowReport` | zelvex-sim/src/backtest.rs:45-79 | the report on one row, all fields written out: profit and gas of a row recorded as go, nothing else, and its mismatch if any |
| `Replay.MergedFields` | zelvex-sim/src/backtest.rs:38-97 | counts, sums and mismatches of two pages add up, so that one-row reports fix every report |
| `Replay.MatchRateIsShare` | zelvex-sim/src/backtest.rs:82-87 | rate times total is 100 times matched, and 100 on no rows |
| `Replay.MismatchWrittenOut` | zelvex-sim/src/backtest.rs:68-77 | the eight fields of a mismatch, by its row and the threshold |
| `Replay.ReportIsUnique` | zelvex-sim/src/backtest.rs:38-97 | these facts determine the report |
| `Replay.MismatchesArePositions` | zelvex-sim/src/backtest.rs:64-79 | each mismatch carries all fields of its row |
| `Replay.PositionsAreDisagreeing` | zelvex-sim/src/backtest.rs:64-79 | the rows are exactly the disagreeing ones, in increasing order |
| `Replay.ReportsMerge` | zelvex-sim/src/backtest.rs:38-97 | the report on concatenated pages is the merge of the pages' reports |
| `Replay.RaisingLosesGoRows` | zelvex-sim/src/backtest.rs:46-57 | raising the threshold loses exactly the go rows whose net profit it passes |
| `Replay.ReplayDisagreesIff` | zelvex-sim/src/lib.rs:11-28 | any page of any run, replayed at another threshold, disagrees exactly on the rows whose net profit the threshold passed |
| `Replay.ReplayAgreesWithLive` | zelvex-sim/src/backtest.rs:29-37 | at the recorded threshold there is no mismatch and the rate is 100 |
| `LoginLimiter.Recent` | zelvex-api/src/lib.rs:657 | keeps exactly the times less than a window old |
| `LoginLimiter.RecentOfRecent` | zelvex-api/src/lib.rs:657 | pruning early loses nothing that a later pruning would keep |
| `LoginLimiter.Limiter.Enforce` | zelvex-api/src/lib.rs:651-664 | accepts exactly when fewer than five attempts of that address were accepted in the preceding window of the full history |
| `LoginLimiter.EnforceAll` | zelvex-api/src/lib.rs:651-664 | in every run with a non-decreasing clock, attempt i is let in if and only if fewer than 5 earlier positions were let in for the same address less than 60,000,000,000 ns before it |
| `LoginLimiter.FivePerWindow` | zelvex-api/src/lib.rs:651-664 | then at most 5 positions per address are let in within any half-open 60,000,000,000 ns |
| `LoginLimiter.DecidedIsAccepted` | zelvex-api/src/lib.rs:651-664 | these decisions are those of deciding each attempt against the whole history |
| `LoginLimiter.AtMostFivePerWindow` | zelvex-api/src/lib.rs:651-664 | over every run any half-open 60-second window holds at most five accepted attempts per address |
| `LoginLimiter.AddressesAreIndependent` | zelvex-api/src/lib.rs:656 | each address sees the limiter it would see alone |
| `TradeCursor.Connection.Push` | zelvex-api/src/lib.rs:771-813 | sends the fetched rows in order and moves the cursor to the last; a failed send closes the connection with the cursor at the failed row |
| `TradeCursor.PushedWrittenOut` | zelvex-api/src/lib.rs:771-813 | a tick by row numbers: of the at most 50 rows above the cursor the first `sendsOk` are sent, the cursor ends on the last row tried, and a failed try closes the connection |
| `TradeCursor.RestWrittenOut` | zelvex-api/src/lib.rs:354-358 | a closed connection ignores ticks, and a row with a new largest id enters the table |
| `TradeCursor.RunTakesEvery` | zelvex-api/src/lib.rs:332-361 | a run takes every event, in order |
| `TradeCursor.FetchIsRange` | zelvex-api/src/lib.rs:771-778 | a fetch is the range of ids up to its last row, at most fifty, and fewer only when nothing is left |
| `TradeCursor.BetweenHolds` | zelvex-api/src/lib.rs:773 | a range of ids holds exactly the rows with those ids |
| `TradeCursor.BetweenAscends` | zelvex-api/src/lib.rs:773 | each once, in increasing order |
| `TradeCursor.StartIsCaught` | zelvex-api/src/lib.rs:325-330 | a new connection, from the largest id or from zero, has sent exactly its empty range |
| `TradeCursor.Serve` | zelvex-api/src/lib.rs:332-361 | a connection served over any run of inserts and ticks goes through exactly the run's states |
| `TradeCursor.SentIsExact` | zelvex-api/src/lib.rs:325-361 | on every run of a connection, failed sends included, the rows sent are exactly those above the start and up to the cursor, in order; after a failed send, up to the row before it |
| `TradeCursor.BacklogDrains` | zelvex-api/src/lib.rs:771-813 | without inserts k ticks leave the backlog less 50k; once 50k covers it, everything has been sent |
| `WeiText.FormatByParts` | zelvex-api/src/lib.rs:818-841 | every branch prints whole ETH, then the remaining wei as eighteen digits without trailing zeros |
| `WeiText.FormatRoundTrips` | zelvex-api/src/lib.rs:818-841 | for every amount the text is canonical and reads back as the amount |
| `WeiText.CanonicalIsPrinted` | zelvex-api/src/lib.rs:818-841 | every canonical text is the print of the amount it reads as |
| `WeiText.PrintingIsInjective` | zelvex-api/src/lib.rs:818-841 | different amounts print differently |
| `WeiText.ShortFractionIsNeverEmpty` | zelvex-api/src/lib.rs:823-831 | the empty-fraction branch for short strings is never taken |

## Left out

- IEEE-754 rounding: dollars, gwei and the percentile index are computed over the reals; for the at most twenty samples the index is the same.
- The text of no-go reasons: two amounts printed with four decimals; modelled as the two amounts.
- Reserves of 2^112 or more: what the scan lists is its code's outcome, and its panics and guards are characterised; no exact profit is claimed for wrapped arithmetic.
- Liquidity operations, skim and sync on pairs, flash swaps, the pair's refusal to pay its own token contracts, tokens with transfer hooks, fees or unlimited allowances, and more than 2^256 of one token.
- A lender that answers a request the contract never made: `ExecuteOperation` covers the call itself, the runs do not include it.
- ABI encoding of the parameters passed through the lender, and gas.
- `rescueEth`: a single transfer of ether.
- The scanner's price refresh and its failures: in the wake-up model the scanner is alive and the price of each scan is arbitrary.
- WakeUp.NoLostWakeUp: runs start from pools without reserves, as at start-up, and one subscription; reconnecting after the log stream ends is not modelled.
- Executor, bundle relay, inclusion tracking, signing, configuration, authentication, user registration, HTTP routes and the web interface: thin layers over libraries.
- Retry and backoff loops: at most ten attempts.
- Other messages of the websocket tick: only the trade rows are modelled, and a failure before them closes the connection as a failed first send does.
- The database: rows are appended and ids increase.
