/**
 The live decision, the rows the scanner records, and the backtest that replays them. Dollar amounts
 are reals; a no-go reason is the pair of amounts its text shows.
 */
module Replay {
  import opened Words
  import opened Scanner

  const GAS_UNITS: real := 200_000.0

  datatype Reason = Reason(netProfitUsd: real, minProfitUsd: real)

  datatype Decision = Go(netProfitUsd: real, gasCostUsd: real) | NoGo(reason: Reason)

  /** A stored opportunity; the decision is free text in the table. */
  datatype Row = Row(
    id: int, estimatedProfitUsd: real, gasEstimateUsd: real, spreadBps: nat,
    decision: string, reason: Option<Reason>, tradeId: Option<int>, timestamp: int)

  datatype Mismatch = Mismatch(
    id: int, original: string, recomputed: string, originalReason: Option<Reason>, recomputedReason: Option<Reason>,
    estimatedProfitUsd: real, gasEstimateUsd: real, netProfitUsd: real)

  datatype Report = Report(
    total: nat, matched: nat, mismatched: nat, matchRatePct: real,
    profitGoUsd: real, gasGoUsd: real, mismatches: seq<Mismatch>)

  // ----- The live decision -----

  /** Written out both in the scanner and in `evaluate`. */
  function GasCostUsd(totalGwei: real, ethPriceUsd: real): (cost: real)
    ensures cost * 1_000_000_000.0 == 200_000.0 * (totalGwei * ethPriceUsd)
  {
    GasCostScales(totalGwei, ethPriceUsd);
    totalGwei * GAS_UNITS / 1_000_000_000.0 * ethPriceUsd
  }

  lemma GasCostScales(totalGwei: real, ethPriceUsd: real)
    ensures totalGwei * GAS_UNITS / 1_000_000_000.0 * ethPriceUsd * 1_000_000_000.0 ==
            200_000.0 * (totalGwei * ethPriceUsd)
  {
    var eth := totalGwei * GAS_UNITS / 1_000_000_000.0;
    assert eth == 0.0002 * totalGwei;
    assert eth * ethPriceUsd == 0.0002 * (totalGwei * ethPriceUsd);
  }

  /** The gas oracle's own estimate, from wei. */
  function EstimateGasCostUsd(gasUnits: nat, totalWei: nat, ethPriceUsd: real): real {
    gasUnits as real * totalWei as real / 1_000_000_000_000_000_000.0 * ethPriceUsd
  }

  /** Scanner, decision and oracle price gas alike: two hundred thousand units at the recommended total. */
  lemma GasCostsAgree(totalWei: nat, ethPriceUsd: real)
    ensures GasCostUsd(totalWei as real / 1_000_000_000.0, ethPriceUsd) ==
            EstimateGasCostUsd(200_000, totalWei, ethPriceUsd)
  {
    var wei := totalWei as real;
    assert wei / 1_000_000_000.0 * GAS_UNITS / 1_000_000_000.0 == 200_000.0 * wei / 1_000_000_000_000_000_000.0;
  }

  /** `evaluate`. */
  function Evaluate(opp: Opportunity, totalGwei: real, ethPriceUsd: real, minProfitUsd: real): Decision {
    var gasCost := GasCostUsd(totalGwei, ethPriceUsd);
    var net := opp.estimatedProfitUsd - gasCost;
    if net > minProfitUsd then Go(net, gasCost) else NoGo(Reason(net, minProfitUsd))
  }

  /** The decision by its parts: go exactly above the threshold, with the net profit and the gas cost. */
  lemma EvaluateIs(opp: Opportunity, totalGwei: real, ethPriceUsd: real, min: real)
    ensures var cost, d := GasCostUsd(totalGwei, ethPriceUsd), Evaluate(opp, totalGwei, ethPriceUsd, min);
            && (d.Go? <==> opp.estimatedProfitUsd - cost > min)
            && (d.Go? ==> d.netProfitUsd == opp.estimatedProfitUsd - cost && d.gasCostUsd == cost)
            && (d.NoGo? ==> d.reason.netProfitUsd == opp.estimatedProfitUsd - cost && d.reason.minProfitUsd == min)
  {
  }

  // ----- The recording loop -----

  /** What the outside does for one opportunity: block number, execution, insertion. */
  datatype Io = Io(blockOk: bool, trade: Option<int>, insertOk: bool, rowId: int, at: int)

  /** One scan's findings with the gas and price it was made at. */
  datatype Round = Round(found: seq<(Opportunity, Io)>, totalGwei: real, ethPriceUsd: real)

  class Recorder {
    const minProfitUsd: real
    const hasExecutor: bool
    var rows: seq<Row>
    var executed: seq<Opportunity>
    var alive: bool

    constructor (min: real, exec: bool)
      ensures minProfitUsd == min && hasExecutor == exec && rows == [] && executed == [] && alive
    {
      minProfitUsd, hasExecutor, rows, executed, alive := min, exec, [], [], true;
    }

    /** The body of the scanner's loop after the scan; a failed block query or insertion ends the scanner. */
    method Record(round: Round)
      requires alive
      modifies this
      ensures var n := Completed(round, minProfitUsd, hasExecutor);
              && (alive <==> n == |round.found|)
              && rows == old(rows) + RowsOf(round, minProfitUsd, hasExecutor, n)
              && executed == old(executed) + HandedOver(round, minProfitUsd, hasExecutor, n)
    {
      var gasEstimateUsd := GasCostUsd(round.totalGwei, round.ethPriceUsd);
      ghost var n := Completed(round, minProfitUsd, hasExecutor);
      CompletedIsFirstFailure(round, minProfitUsd, hasExecutor, |round.found|);
      for i := 0 to |round.found|
        invariant alive && i <= n
        invariant rows == old(rows) + RowsOf(round, minProfitUsd, hasExecutor, i)
        invariant executed == old(executed) + GoPrefix(round, minProfitUsd, hasExecutor, i)
      {
        var (found, io) := round.found[i];
        var opp := found.(gasEstimateUsd := gasEstimateUsd);
        assert opp == Priced(round, i) && (i < n <==> Handled(round, minProfitUsd, hasExecutor, i));
        var decision := Evaluate(opp, round.totalGwei, round.ethPriceUsd, minProfitUsd);
        var (text, reason) := match decision
          case Go(_, _) => ("go", None)
          case NoGo(why) => ("no-go", Some(why));
        var tradeId := None;
        if decision.Go? && hasExecutor {
          if !io.blockOk {
            alive := false;
            return;
          }
          executed := executed + [opp];
          tradeId := io.trade;
        }
        if !io.insertOk {
          alive := false;
          return;
        }
        var row := Row(io.rowId, opp.estimatedProfitUsd, opp.gasEstimateUsd, opp.spreadBps,
                       text, reason, tradeId, io.at);
        assert row == RowOf(round, minProfitUsd, hasExecutor, i);
        rows := rows + [row];
      }
    }
  }

  /** The opportunity as it is evaluated and stored. */
  function Priced(round: Round, i: nat): Opportunity
    requires i < |round.found|
  {
    round.found[i].0.(gasEstimateUsd := GasCostUsd(round.totalGwei, round.ethPriceUsd))
  }

  predicate IsGo(round: Round, min: real, i: nat)
    requires i < |round.found|
  {
    Evaluate(Priced(round, i), round.totalGwei, round.ethPriceUsd, min).Go?
  }

  predicate Handled(round: Round, min: real, exec: bool, i: nat)
    requires i < |round.found|
  {
    round.found[i].1.insertOk && (IsGo(round, min, i) && exec ==> round.found[i].1.blockOk)
  }

  /** How many opportunities are stored before the first failure among the first `k`. */
  function CompletedOf(round: Round, min: real, exec: bool, k: nat): (n: nat)
    requires k <= |round.found|
    ensures n <= k
  {
    if k == 0 then 0
    else
      var before := CompletedOf(round, min, exec, k - 1);
      if before == k - 1 && Handled(round, min, exec, k - 1) then k else before
  }

  function Completed(round: Round, min: real, exec: bool): nat {
    CompletedOf(round, min, exec, |round.found|)
  }

  lemma {:induction false} CompletedIsFirstFailure(round: Round, min: real, exec: bool, k: nat)
    requires k <= |round.found|
    ensures var n := CompletedOf(round, min, exec, k);
            && (forall i: nat | i < n :: Handled(round, min, exec, i))
            && (n < k ==> !Handled(round, min, exec, n))
  {
    if k > 0 {
      CompletedIsFirstFailure(round, min, exec, k - 1);
    }
  }

  /** The row an opportunity leaves: the verdict of the replay rule on the stored amounts. */
  function RowOf(round: Round, min: real, exec: bool, i: nat): Row
    requires i < |round.found|
  {
    var opp, io := Priced(round, i), round.found[i].1;
    Row(io.rowId, opp.estimatedProfitUsd, opp.gasEstimateUsd, opp.spreadBps,
        Verdict(opp.estimatedProfitUsd, opp.gasEstimateUsd, min), Why(opp.estimatedProfitUsd, opp.gasEstimateUsd, min),
        if exec && opp.estimatedProfitUsd - opp.gasEstimateUsd > min then io.trade else None, io.at)
  }

  function RowsOf(round: Round, min: real, exec: bool, n: nat): seq<Row>
    requires n <= |round.found|
  {
    if n == 0 then [] else RowsOf(round, min, exec, n - 1) + [RowOf(round, min, exec, n - 1)]
  }

  /** The go opportunities among the first `n`, when an executor is configured. */
  function GoPrefix(round: Round, min: real, exec: bool, n: nat): seq<Opportunity>
    requires n <= |round.found|
  {
    if n == 0 then []
    else if exec && IsGo(round, min, n - 1) then GoPrefix(round, min, exec, n - 1) + [Priced(round, n - 1)]
    else GoPrefix(round, min, exec, n - 1)
  }

  /** What was handed to the executor: one more than the stored rows when the insertion after it failed. */
  function HandedOver(round: Round, min: real, exec: bool, n: nat): seq<Opportunity>
    requires n <= |round.found|
  {
    if n < |round.found| && round.found[n].1.blockOk
    then GoPrefix(round, min, exec, n + 1)
    else GoPrefix(round, min, exec, n)
  }

  // ----- A round, written out -----

  /** Opportunities are stored up to the first whose insertion, or whose block query if it is to be executed, fails. */
  lemma StoredUntilFailure(round: Round, min: real, exec: bool)
    ensures var n, cost := Completed(round, min, exec), GasCostUsd(round.totalGwei, round.ethPriceUsd);
            && n <= |round.found|
            && (forall i: nat | i < n :: round.found[i].1.insertOk)
            && (forall i: nat | i < n && exec && round.found[i].0.estimatedProfitUsd - cost > min ::
                  round.found[i].1.blockOk)
            && (n < |round.found| ==>
                  || !round.found[n].1.insertOk
                  || (exec && round.found[n].0.estimatedProfitUsd - cost > min && !round.found[n].1.blockOk))
  {
    CompletedIsFirstFailure(round, min, exec, |round.found|);
    var n := Completed(round, min, exec);
    forall i: nat | i < n
      ensures round.found[i].1.insertOk
      ensures exec && round.found[i].0.estimatedProfitUsd - GasCostUsd(round.totalGwei, round.ethPriceUsd) > min ==>
                round.found[i].1.blockOk
    {
      assert Handled(round, min, exec, i);
    }
  }

  /** The stored rows, field by field. */
  lemma {:induction false} RowsWrittenOut(round: Round, min: real, exec: bool, n: nat)
    requires n <= |round.found|
    ensures |RowsOf(round, min, exec, n)| == n
    ensures forall i: nat | i < n ::
              var row, opp, io := RowsOf(round, min, exec, n)[i], round.found[i].0, round.found[i].1;
              var cost := GasCostUsd(round.totalGwei, round.ethPriceUsd);
              && row.id == io.rowId && row.timestamp == io.at && row.spreadBps == opp.spreadBps
              && row.estimatedProfitUsd == opp.estimatedProfitUsd && row.gasEstimateUsd == cost
              && (opp.estimatedProfitUsd - cost > min ==>
                    row.decision == "go" && row.reason == None && row.tradeId == if exec then io.trade else None)
              && (opp.estimatedProfitUsd - cost <= min ==>
                    && row.decision == "no-go" && row.tradeId == None
                    && row.reason == Some(Reason(opp.estimatedProfitUsd - cost, min)))
  {
    if n > 0 {
      RowsWrittenOut(round, min, exec, n - 1);
    }
  }

  predicate IncreasingBelow(at: seq<nat>, n: nat) {
    && (forall k :: 0 <= k < |at| ==> at[k] < n)
    && (forall j, k :: 0 <= j < k < |at| ==> at[j] < at[k])
  }

  /** Positions of the go opportunities among the first `n`. */
  function GoPositions(round: Round, min: real, exec: bool, n: nat): seq<nat>
    requires n <= |round.found|
  {
    if n == 0 then []
    else if exec && IsGo(round, min, n - 1) then GoPositions(round, min, exec, n - 1) + [n - 1]
    else GoPositions(round, min, exec, n - 1)
  }

  lemma {:induction false} GoPrefixIs(round: Round, min: real, exec: bool, n: nat)
    requires n <= |round.found|
    ensures var at, opps := GoPositions(round, min, exec, n), GoPrefix(round, min, exec, n);
            && IncreasingBelow(at, n) && |opps| == |at|
            && forall k :: 0 <= k < |at| ==> opps[k] == Priced(round, at[k])
  {
    if n > 0 {
      GoPrefixIs(round, min, exec, n - 1);
    }
  }

  lemma {:induction false} GoPositionIff(round: Round, min: real, exec: bool, n: nat, i: nat)
    requires n <= |round.found|
    ensures i in GoPositions(round, min, exec, n) <==>
            && i < n && exec
            && round.found[i].0.estimatedProfitUsd - GasCostUsd(round.totalGwei, round.ethPriceUsd) > min
  {
    if n > 0 {
      GoPositionIff(round, min, exec, n - 1, i);
    }
  }

  /** Positions of the opportunities handed to the executor, when `n` of the round were stored. */
  function ExecutedAt(round: Round, min: real, exec: bool, n: nat): seq<nat>
    requires n <= |round.found|
  {
    GoPositions(round, min, exec, if n < |round.found| && round.found[n].1.blockOk then n + 1 else n)
  }

  /**
   What a round hands to the executor: in order, exactly the opportunities whose net profit exceeds the
   threshold, each with the round's gas cost, up to and including one whose insertion then failed.
   */
  lemma HandedOverExactly(round: Round, min: real, exec: bool, n: nat)
    requires n <= |round.found|
    ensures var at, opps := ExecutedAt(round, min, exec, n), HandedOver(round, min, exec, n);
            var cost := GasCostUsd(round.totalGwei, round.ethPriceUsd);
            && IncreasingBelow(at, |round.found|) && |opps| == |at|
            && (forall k :: 0 <= k < |at| ==> opps[k] == round.found[at[k]].0.(gasEstimateUsd := cost))
            && (forall i: nat | i < |round.found| ::
                  i in at <==> && exec && round.found[i].0.estimatedProfitUsd - cost > min
                               && (i < n || (i == n && round.found[i].1.blockOk)))
  {
    var m := if n < |round.found| && round.found[n].1.blockOk then n + 1 else n;
    GoPrefixIs(round, min, exec, m);
    forall i: nat | i < |round.found|
      ensures i in ExecutedAt(round, min, exec, n) <==>
              && exec
              && round.found[i].0.estimatedProfitUsd - GasCostUsd(round.totalGwei, round.ethPriceUsd) > min
              && (i < n || (i == n && round.found[i].1.blockOk))
    {
      GoPositionIff(round, min, exec, m, i);
    }
  }

  // ----- The backtest -----

  /** The replay rule. */
  function Verdict(profit: real, gas: real, min: real): string {
    if profit - gas > min then "go" else "no-go"
  }

  function Why(profit: real, gas: real, min: real): Option<Reason> {
    if profit - gas > min then None else Some(Reason(profit - gas, min))
  }

  predicate Disagrees(row: Row, min: real) {
    row.decision != Verdict(row.estimatedProfitUsd, row.gasEstimateUsd, min)
  }

  function MismatchOf(row: Row, min: real): Mismatch {
    Mismatch(row.id, row.decision, Verdict(row.estimatedProfitUsd, row.gasEstimateUsd, min), row.reason,
             Why(row.estimatedProfitUsd, row.gasEstimateUsd, min), row.estimatedProfitUsd, row.gasEstimateUsd,
             row.estimatedProfitUsd - row.gasEstimateUsd)
  }

  /** The mismatches among the first `n` rows of a table, in row order. */
  function MismatchesTo(rows: seq<Row>, min: real, n: nat): seq<Mismatch>
    requires n <= |rows|
  {
    if n == 0 then []
    else if Disagrees(rows[n - 1], min) then MismatchesTo(rows, min, n - 1) + [MismatchOf(rows[n - 1], min)]
    else MismatchesTo(rows, min, n - 1)
  }

  function Mismatches(rows: seq<Row>, min: real): seq<Mismatch> {
    MismatchesTo(rows, min, |rows|)
  }

  datatype Sums = Sums(profitUsd: real, gasUsd: real)

  /** Sums over those of the first `n` rows that were recorded as go. */
  function GoSumsTo(rows: seq<Row>, n: nat): Sums
    requires n <= |rows|
  {
    if n == 0 then Sums(0.0, 0.0)
    else
      var sums, last := GoSumsTo(rows, n - 1), rows[n - 1];
      if last.decision == "go"
      then Sums(sums.profitUsd + last.estimatedProfitUsd, sums.gasUsd + last.gasEstimateUsd)
      else sums
  }

  function GoSums(rows: seq<Row>): Sums {
    GoSumsTo(rows, |rows|)
  }

  function MatchRate(matched: nat, total: nat): real {
    if total == 0 then 100.0 else matched as real / total as real * 100.0
  }

  /** `r` is the report on `rows` at threshold `min`. */
  predicate Reports(r: Report, rows: seq<Row>, min: real) {
    && r.total == |rows| && r.mismatches == Mismatches(rows, min)
    && r.mismatched == |r.mismatches| && r.matched + r.mismatched == r.total
    && r.matchRatePct == MatchRate(r.matched, r.total)
    && Sums(r.profitGoUsd, r.gasGoUsd) == GoSums(rows)
  }

  /** `run_backtest`. */
  method RunBacktest(rows: seq<Row>, minProfitUsd: real) returns (r: Report)
    ensures Reports(r, rows, minProfitUsd)
  {
    var matched, mismatched, profitGo, gasGo := 0, 0, 0.0, 0.0;
    var mismatches: seq<Mismatch> := [];
    for i := 0 to |rows|
      invariant matched + mismatched == i && mismatched == |mismatches|
      invariant mismatches == MismatchesTo(rows, minProfitUsd, i)
      invariant Sums(profitGo, gasGo) == GoSumsTo(rows, i)
    {
      var row := rows[i];
      var net := row.estimatedProfitUsd - row.gasEstimateUsd;
      var (recomputed, reason) :=
        if net > minProfitUsd then ("go", None) else ("no-go", Some(Reason(net, minProfitUsd)));
      if row.decision == "go" {
        profitGo := profitGo + row.estimatedProfitUsd;
        gasGo := gasGo + row.gasEstimateUsd;
      }
      if row.decision == recomputed {
        matched := matched + 1;
      } else {
        mismatched := mismatched + 1;
        mismatches := mismatches + [
          Mismatch(row.id, row.decision, recomputed, row.reason, reason,
                   row.estimatedProfitUsd, row.gasEstimateUsd, net)];
      }
    }
    var total := |rows|;
    var rate := if total == 0 then 100.0 else matched as real / total as real * 100.0;
    r := Report(total, matched, mismatched, rate, profitGo, gasGo, mismatches);
  }

  // ----- What a report says -----

  /** The report on given rows is unique. */
  lemma ReportIsUnique(r: Report, q: Report, rows: seq<Row>, min: real)
    requires Reports(r, rows, min)
    ensures Reports(q, rows, min) <==> q == r
  {
    if Reports(q, rows, min) {
      assert q.matched == r.matched;
      assert Sums(q.profitGoUsd, q.gasGoUsd) == Sums(r.profitGoUsd, r.gasGoUsd);
    }
  }

  /** Positions of those of the first `n` rows that disagree, in order. */
  function DisagreeingTo(rows: seq<Row>, min: real, n: nat): seq<nat>
    requires n <= |rows|
  {
    if n == 0 then []
    else if Disagrees(rows[n - 1], min) then DisagreeingTo(rows, min, n - 1) + [n - 1]
    else DisagreeingTo(rows, min, n - 1)
  }

  function Disagreeing(rows: seq<Row>, min: real): seq<nat> {
    DisagreeingTo(rows, min, |rows|)
  }

  lemma {:induction false} MismatchesArePositionsTo(rows: seq<Row>, min: real, n: nat)
    requires n <= |rows|
    ensures var at, ms := DisagreeingTo(rows, min, n), MismatchesTo(rows, min, n);
            |ms| == |at| <= n && forall k :: 0 <= k < |at| ==> at[k] < n && ms[k] == MismatchOf(rows[at[k]], min)
  {
    if n > 0 {
      MismatchesArePositionsTo(rows, min, n - 1);
    }
  }

  /** A mismatch, field by field. */
  lemma MismatchWrittenOut(row: Row, min: real)
    ensures var m, net := MismatchOf(row, min), row.estimatedProfitUsd - row.gasEstimateUsd;
            && m.id == row.id && m.original == row.decision && m.originalReason == row.reason
            && m.estimatedProfitUsd == row.estimatedProfitUsd && m.gasEstimateUsd == row.gasEstimateUsd
            && m.netProfitUsd == net
            && (net > min ==> m.recomputed == "go" && m.recomputedReason == None)
            && (net <= min ==> m.recomputed == "no-go" && m.recomputedReason == Some(Reason(net, min)))
  {
  }

  /** The listed mismatches are those of the rows at these positions, with all their fields ... */
  lemma MismatchesArePositions(rows: seq<Row>, min: real)
    ensures var at, ms := Disagreeing(rows, min), Mismatches(rows, min);
            && |ms| == |at| <= |rows|
            && forall k :: 0 <= k < |at| ==> at[k] < |rows| && ms[k] == MismatchOf(rows[at[k]], min)
  {
    MismatchesArePositionsTo(rows, min, |rows|);
  }

  lemma {:induction false} PositionsIncrease(rows: seq<Row>, min: real, n: nat)
    requires n <= |rows|
    ensures IncreasingBelow(DisagreeingTo(rows, min, n), n)
  {
    if n > 0 {
      PositionsIncrease(rows, min, n - 1);
    }
  }

  lemma {:induction false} PositionIff(rows: seq<Row>, min: real, n: nat, i: nat)
    requires n <= |rows|
    ensures i in DisagreeingTo(rows, min, n) <==> i < n && Disagrees(rows[i], min)
  {
    if n > 0 {
      PositionIff(rows, min, n - 1, i);
    }
  }

  /** ... and the positions are exactly those of the disagreeing rows, in increasing order. */
  lemma PositionsAreDisagreeing(rows: seq<Row>, min: real)
    ensures var at := Disagreeing(rows, min);
            && IncreasingBelow(at, |rows|)
            && (forall i: nat | i < |rows| ::
                  var net := rows[i].estimatedProfitUsd - rows[i].gasEstimateUsd;
                  i in at <==> rows[i].decision != if net > min then "go" else "no-go")
  {
    PositionsIncrease(rows, min, |rows|);
    forall i: nat | i < |rows| ensures i in Disagreeing(rows, min) <==> Disagrees(rows[i], min) {
      PositionIff(rows, min, |rows|, i);
    }
  }

  lemma {:induction false} NoneDisagree(rows: seq<Row>, min: real, n: nat)
    requires n <= |rows| && forall row :: row in rows ==> !Disagrees(row, min)
    ensures MismatchesTo(rows, min, n) == []
  {
    if n > 0 {
      NoneDisagree(rows, min, n - 1);
    }
  }

  function Merge(a: Report, b: Report): Report {
    Report(a.total + b.total, a.matched + b.matched, a.mismatched + b.mismatched,
           MatchRate(a.matched + b.matched, a.total + b.total),
           a.profitGoUsd + b.profitGoUsd, a.gasGoUsd + b.gasGoUsd, a.mismatches + b.mismatches)
  }

  lemma {:induction false} MismatchesAgree(a: seq<Row>, b: seq<Row>, min: real, n: nat)
    requires n <= |a| && n <= |b| && forall i :: 0 <= i < n ==> a[i] == b[i]
    ensures MismatchesTo(a, min, n) == MismatchesTo(b, min, n)
  {
    if n > 0 {
      MismatchesAgree(a, b, min, n - 1);
    }
  }

  lemma {:induction false} GoSumsAgree(a: seq<Row>, b: seq<Row>, n: nat)
    requires n <= |a| && n <= |b| && forall i :: 0 <= i < n ==> a[i] == b[i]
    ensures GoSumsTo(a, n) == GoSumsTo(b, n)
  {
    if n > 0 {
      GoSumsAgree(a, b, n - 1);
    }
  }

  lemma {:induction false} MismatchesConcat(a: seq<Row>, b: seq<Row>, min: real, n: nat)
    requires n <= |b|
    ensures MismatchesTo(a + b, min, |a| + n) == Mismatches(a, min) + MismatchesTo(b, min, n)
  {
    if n == 0 {
      MismatchesAgree(a + b, a, min, |a|);
    } else {
      MismatchesConcat(a, b, min, n - 1);
      ConcatStep(a + b, b, |a| + n - 1, n - 1, min, Mismatches(a, min));
    }
  }

  lemma ConcatStep(s: seq<Row>, b: seq<Row>, m: nat, n: nat, min: real, x: seq<Mismatch>)
    requires m < |s| && n < |b| && s[m] == b[n] && MismatchesTo(s, min, m) == x + MismatchesTo(b, min, n)
    ensures MismatchesTo(s, min, m + 1) == x + MismatchesTo(b, min, n + 1)
  {
    AppendLast(x, MismatchesTo(b, min, n), MismatchOf(b[n], min));
  }

  lemma AppendLast(x: seq<Mismatch>, y: seq<Mismatch>, m: Mismatch)
    ensures x + y + [m] == x + (y + [m])
  {
  }

  lemma ReportParts(a: seq<Row>, b: seq<Row>, min: real)
    ensures Mismatches(a + b, min) == Mismatches(a, min) + Mismatches(b, min)
    ensures GoSums(a + b) == Sums(GoSums(a).profitUsd + GoSums(b).profitUsd, GoSums(a).gasUsd + GoSums(b).gasUsd)
  {
    MismatchesConcat(a, b, min, |b|);
    GoSumsConcat(a, b, |b|);
  }

  lemma {:induction false} GoSumsConcat(a: seq<Row>, b: seq<Row>, n: nat)
    requires n <= |b|
    ensures var x, y := GoSums(a), GoSumsTo(b, n);
            GoSumsTo(a + b, |a| + n) == Sums(x.profitUsd + y.profitUsd, x.gasUsd + y.gasUsd)
  {
    if n == 0 {
      GoSumsAgree(a + b, a, |a|);
    } else {
      GoSumsConcat(a, b, n - 1);
    }
  }

  /** Reports on pages merge to the report on all of them. */
  lemma ReportsMerge(ra: Report, a: seq<Row>, rb: Report, b: seq<Row>, min: real)
    requires Reports(ra, a, min) && Reports(rb, b, min)
    ensures Reports(Merge(ra, rb), a + b, min)
  {
    ReportParts(a, b, min);
  }

  /** The fields of the report on two pages are the sums of theirs. */
  lemma MergedFields(ra: Report, a: seq<Row>, rb: Report, b: seq<Row>, r: Report, min: real)
    requires Reports(ra, a, min) && Reports(rb, b, min) && Reports(r, a + b, min)
    ensures r.total == ra.total + rb.total && r.matched == ra.matched + rb.matched
    ensures r.mismatched == ra.mismatched + rb.mismatched && r.mismatches == ra.mismatches + rb.mismatches
    ensures r.profitGoUsd == ra.profitGoUsd + rb.profitGoUsd && r.gasGoUsd == ra.gasGoUsd + rb.gasGoUsd
  {
    ReportsMerge(ra, a, rb, b, min);
    ReportIsUnique(Merge(ra, rb), r, a + b, min);
  }

  /** The report on one row, written out: with `MergedFields`, this fixes the report on any table. */
  lemma OneRowReport(r: Report, row: Row, min: real)
    requires Reports(r, [row], min)
    ensures var net := row.estimatedProfitUsd - row.gasEstimateUsd;
            var verdict := if net > min then "go" else "no-go";
            && r.total == 1
            && r.profitGoUsd == (if row.decision == "go" then row.estimatedProfitUsd else 0.0)
            && r.gasGoUsd == (if row.decision == "go" then row.gasEstimateUsd else 0.0)
            && r.matched == (if row.decision == verdict then 1 else 0)
            && (row.decision == verdict ==> r.mismatches == [])
            && (row.decision != verdict ==>
                  r.mismatches == [Mismatch(row.id, row.decision, verdict, row.reason,
                                            if net > min then None else Some(Reason(net, min)),
                                            row.estimatedProfitUsd, row.gasEstimateUsd, net)])
  {
    assert GoSumsTo([row], 0) == Sums(0.0, 0.0) && MismatchesTo([row], min, 0) == [];
    assert Sums(r.profitGoUsd, r.gasGoUsd) == GoSumsTo([row], 1);
  }

  /** The match rate is the matched share in percent, 100 on no rows. */
  lemma MatchRateIsShare(r: Report, rows: seq<Row>, min: real)
    requires Reports(r, rows, min)
    ensures r.matchRatePct * r.total as real == 100.0 * r.matched as real
    ensures r.total == 0 ==> r.matchRatePct == 100.0
  {
    if r.total > 0 {
      ShareScales(r.matched as real, r.total as real);
    }
  }

  lemma ShareScales(m: real, n: real)
    requires n > 0.0
    ensures m / n * 100.0 * n == 100.0 * m
  {
    assert m / n * n == m;
  }

  // ----- Thresholds -----

  function Net(row: Row): real {
    row.estimatedProfitUsd - row.gasEstimateUsd
  }

  /** Positions of the rows the replay calls go. */
  function GoAt(rows: seq<Row>, min: real): set<nat> {
    set i: nat | i < |rows| && Verdict(rows[i].estimatedProfitUsd, rows[i].gasEstimateUsd, min) == "go"
  }

  /** Raising the threshold only loses go rows, and loses exactly those whose net profit it passes. */
  lemma RaisingLosesGoRows(rows: seq<Row>, low: real, high: real)
    requires low <= high
    ensures GoAt(rows, high) <= GoAt(rows, low)
    ensures GoAt(rows, low) - GoAt(rows, high) == set i: nat | i < |rows| && low < Net(rows[i]) <= high
  {
  }

  // ----- Recorded runs -----

  /** The row holds the verdict and reason of threshold `min` on its own amounts; only a go row has a trade. */
  predicate RecordedAt(row: Row, min: real) {
    && (row.tradeId.Some? ==> Net(row) > min)
    && row.decision == Verdict(row.estimatedProfitUsd, row.gasEstimateUsd, min)
    && row.reason == Why(row.estimatedProfitUsd, row.gasEstimateUsd, min)
  }

  /** A run's table, its executions, and whether the scanner is still alive: rounds after a failure do not happen. */
  datatype Log = Log(rows: seq<Row>, executed: seq<Opportunity>, alive: bool)

  function RunTo(rounds: seq<Round>, min: real, exec: bool, k: nat): Log
    requires k <= |rounds|
  {
    if k == 0 then Log([], [], true)
    else
      var log, round := RunTo(rounds, min, exec, k - 1), rounds[k - 1];
      var n := Completed(round, min, exec);
      if log.alive
      then Log(log.rows + RowsOf(round, min, exec, n), log.executed + HandedOver(round, min, exec, n),
               n == |round.found|)
      else log
  }

  function RunLog(rounds: seq<Round>, min: real, exec: bool): Log {
    RunTo(rounds, min, exec, |rounds|)
  }

  /** The scanner's rounds, one after the other until one fails, leave exactly this. */
  method RecordAll(rounds: seq<Round>, min: real, exec: bool) returns (log: Log)
    ensures log == RunLog(rounds, min, exec)
  {
    var recorder := new Recorder(min, exec);
    for i := 0 to |rounds|
      invariant recorder.minProfitUsd == min && recorder.hasExecutor == exec
      invariant Log(recorder.rows, recorder.executed, recorder.alive) == RunTo(rounds, min, exec, i)
    {
      if recorder.alive {
        recorder.Record(rounds[i]);
      }
    }
    log := Log(recorder.rows, recorder.executed, recorder.alive);
  }

  /** The scanner is alive exactly as long as every round has stored all it found. */
  lemma {:induction false} RunAliveIff(rounds: seq<Round>, min: real, exec: bool, k: nat)
    requires k <= |rounds|
    ensures RunTo(rounds, min, exec, k).alive <==>
            forall j: nat | j < k :: Completed(rounds[j], min, exec) == |rounds[j].found|
  {
    if k > 0 {
      RunAliveIff(rounds, min, exec, k - 1);
    }
  }

  /** Every round reached leaves its rows and executions in the run, after those of the rounds before it. */
  lemma {:induction false} RunKeepsRound(rounds: seq<Round>, min: real, exec: bool, k: nat, m: nat)
    requires k < m <= |rounds| && RunTo(rounds, min, exec, k).alive
    ensures var before, after := RunTo(rounds, min, exec, k), RunTo(rounds, min, exec, m);
            var n := Completed(rounds[k], min, exec);
            && before.rows + RowsOf(rounds[k], min, exec, n) <= after.rows
            && before.executed + HandedOver(rounds[k], min, exec, n) <= after.executed
  {
    if k + 1 < m {
      RunKeepsRound(rounds, min, exec, k, m - 1);
    }
  }

  /** Nothing else is in it: what is there after `k` rounds comes from the last of them, or was there before. */
  lemma RunAddsOnlyRound(rounds: seq<Round>, min: real, exec: bool, k: nat)
    requires 0 < k <= |rounds|
    ensures var before, after := RunTo(rounds, min, exec, k - 1), RunTo(rounds, min, exec, k);
            var n := Completed(rounds[k - 1], min, exec);
            && (!before.alive ==> after == before)
            && (before.alive ==>
                  && |after.rows| == |before.rows| + n
                  && |after.executed| == |before.executed| + |ExecutedAt(rounds[k - 1], min, exec, n)|)
  {
    var round, n := rounds[k - 1], Completed(rounds[k - 1], min, exec);
    RowsWrittenOut(round, min, exec, n);
    HandedOverExactly(round, min, exec, n);
  }

  lemma {:induction false} RoundRows(round: Round, min: real, exec: bool, n: nat, row: Row)
    requires n <= |round.found| && row in RowsOf(round, min, exec, n)
    ensures RecordedAt(row, min)
  {
    if row != RowOf(round, min, exec, n - 1) {
      RoundRows(round, min, exec, n - 1, row);
    }
  }

  lemma {:induction false} RunRows(rounds: seq<Round>, min: real, exec: bool, k: nat, row: Row)
    requires k <= |rounds| && row in RunTo(rounds, min, exec, k).rows
    ensures RecordedAt(row, min)
  {
    if row in RunTo(rounds, min, exec, k - 1).rows {
      RunRows(rounds, min, exec, k - 1, row);
    } else {
      RoundRows(rounds[k - 1], min, exec, Completed(rounds[k - 1], min, exec), row);
    }
  }

  /** The threshold moved past this row's net profit, one way or the other. */
  predicate Passed(row: Row, was: real, now: real) {
    was < Net(row) <= now || now < Net(row) <= was
  }

  /**
   Any page of any run recorded at one threshold, replayed at another, disagrees exactly on the rows
   whose net profit the threshold passed.
   */
  lemma ReplayDisagreesIff(rounds: seq<Round>, min: real, exec: bool, page: seq<Row>, now: real)
    requires forall row :: row in page ==> row in RunLog(rounds, min, exec).rows
    ensures forall i: nat | i < |page| :: i in Disagreeing(page, now) <==> Passed(page[i], min, now)
  {
    PositionsAreDisagreeing(page, now);
    forall i: nat | i < |page| ensures i in Disagreeing(page, now) <==> Passed(page[i], min, now) {
      assert page[i] in page;
      RunRows(rounds, min, exec, |rounds|, page[i]);
    }
  }

  /** At the recorded threshold the replay agrees with every live decision. */
  lemma ReplayAgreesWithLive(rounds: seq<Round>, min: real, exec: bool, page: seq<Row>, r: Report)
    requires forall row :: row in page ==> row in RunLog(rounds, min, exec).rows
    requires Reports(r, page, min)
    ensures r.mismatches == [] && r.matched == r.total && r.matchRatePct == 100.0
  {
    forall row | row in page ensures !Disagrees(row, min) {
      RunRows(rounds, min, exec, |rounds|, row);
    }
    NoneDisagree(page, min, |page|);
    FullRate(r.total);
  }

  lemma FullRate(n: nat)
    ensures MatchRate(n, n) == 100.0
  {
  }

  lemma {:induction false} RoundExecutesOnlyGo(round: Round, min: real, exec: bool, n: nat, opp: Opportunity)
    requires n <= |round.found| && opp in GoPrefix(round, min, exec, n)
    ensures exec && opp.estimatedProfitUsd - opp.gasEstimateUsd > min
  {
    if exec && IsGo(round, min, n - 1) && opp == Priced(round, n - 1) {
    } else {
      RoundExecutesOnlyGo(round, min, exec, n - 1, opp);
    }
  }

  /** Over every run, only opportunities whose net profit exceeds the threshold reach the executor. */
  lemma {:induction false} OnlyGoIsExecuted(rounds: seq<Round>, min: real, exec: bool, k: nat, opp: Opportunity)
    requires k <= |rounds| && opp in RunTo(rounds, min, exec, k).executed
    ensures exec && opp.estimatedProfitUsd - opp.gasEstimateUsd > min
  {
    if opp in RunTo(rounds, min, exec, k - 1).executed {
      OnlyGoIsExecuted(rounds, min, exec, k - 1, opp);
    } else {
      var round := rounds[k - 1];
      var n := Completed(round, min, exec);
      RoundExecutesOnlyGo(round, min, exec, if n < |round.found| && round.found[n].1.blockOk then n + 1 else n, opp);
    }
  }
}
