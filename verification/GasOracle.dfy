/**
 The gas oracle: two rings of the last hundred samples and, as recommended priority fee, the
 ninetieth-percentile order statistic of the last twenty, checked against the whole history.
 */
module GasOracle {
  import opened Words

  const RING: nat := 100
  const WINDOW: nat := 20

  // ----- Order statistics -----

  function CountBelow(s: seq<nat>, v: nat): (c: nat)
    ensures c <= |s|
  {
    if s == [] then 0 else (if s[0] < v then 1 else 0) + CountBelow(s[1..], v)
  }

  /** `v` is the element of rank `k`: it occurs, at most `k` elements are below it, more than `k` are not above it. */
  predicate HasRank(s: seq<nat>, k: nat, v: nat) {
    v in s && CountBelow(s, v) <= k < CountBelow(s, v + 1)
  }

  predicate Sorted(s: seq<nat>) {
    forall i, j :: 0 <= i < j < |s| ==> s[i] <= s[j]
  }

  lemma {:induction false} CountMonotone(s: seq<nat>, v: nat, w: nat)
    requires v <= w
    ensures CountBelow(s, v) <= CountBelow(s, w)
  {
    if s != [] {
      CountMonotone(s[1..], v, w);
    }
  }

  /** There is only one element of each rank. */
  lemma RankIsUnique(s: seq<nat>, k: nat, v: nat, w: nat)
    requires HasRank(s, k, v) && HasRank(s, k, w)
    ensures v == w
  {
    if v < w {
      CountMonotone(s, v + 1, w);
    } else if w < v {
      CountMonotone(s, w + 1, v);
    }
  }

  /** Raising samples cannot lower the element of any rank. */
  lemma RankIsMonotone(s: seq<nat>, t: seq<nat>, k: nat, v: nat, w: nat)
    requires |s| == |t| && forall i :: 0 <= i < |s| ==> s[i] <= t[i]
    requires HasRank(s, k, v) && HasRank(t, k, w)
    ensures v <= w
  {
    if w < v {
      CountMonotone(s, w + 1, v);
      CountOfRaised(s, t, w + 1);
    }
  }

  lemma {:induction false} CountOfRaised(s: seq<nat>, t: seq<nat>, v: nat)
    requires |s| == |t| && forall i :: 0 <= i < |s| ==> s[i] <= t[i]
    ensures CountBelow(t, v) <= CountBelow(s, v)
  {
    if s != [] {
      CountOfRaised(s[1..], t[1..], v);
    }
  }

  /** Counting sees only the multiset. */
  lemma {:induction false} CountOfPermutation(s: seq<nat>, t: seq<nat>, v: nat)
    requires multiset(s) == multiset(t)
    ensures CountBelow(s, v) == CountBelow(t, v)
  {
    if s == [] {
      assert |multiset(t)| == 0;
    } else {
      assert s[0] in multiset(t);
      var i :| 0 <= i < |t| && t[i] == s[0];
      RemoveSame(s, t, i);
      CountRemove(t, i, v);
      CountOfPermutation(s[1..], t[..i] + t[i + 1..], v);
    }
  }

  lemma RemoveSame(s: seq<nat>, t: seq<nat>, i: nat)
    requires multiset(s) == multiset(t) && s != [] && i < |t| && t[i] == s[0]
    ensures multiset(s[1..]) == multiset(t[..i] + t[i + 1..])
  {
    RemoveOne(t, i);
    RemoveOne(s, 0);
    assert s[..0] + s[1..] == s[1..];
  }

  lemma CountRemove(s: seq<nat>, i: nat, v: nat)
    requires i < |s|
    ensures CountBelow(s, v) == (if s[i] < v then 1 else 0) + CountBelow(s[..i] + s[i + 1..], v)
  {
    assert s[..i] + s[i..] == s && s[i..][1..] == s[i + 1..];
    CountAppend(s[..i], s[i..], v);
    CountAppend(s[..i], s[i + 1..], v);
  }

  lemma RemoveOne(s: seq<nat>, i: nat)
    requires i < |s|
    ensures multiset(s[..i] + s[i + 1..]) == multiset(s) - multiset{s[i]}
  {
    assert s == s[..i] + [s[i]] + s[i + 1..];
    assert multiset(s) == multiset(s[..i]) + multiset{s[i]} + multiset(s[i + 1..]);
  }

  lemma {:induction false} CountAppend(s: seq<nat>, t: seq<nat>, v: nat)
    ensures CountBelow(s + t, v) == CountBelow(s, v) + CountBelow(t, v)
  {
    if s == [] {
      assert s + t == t;
    } else {
      assert (s + t)[1..] == s[1..] + t;
      CountAppend(s[1..], t, v);
    }
  }

  /** In a sorted sequence the element at index `k` has rank `k`. */
  lemma SortedRank(s: seq<nat>, k: nat)
    requires Sorted(s) && k < |s|
    ensures HasRank(s, k, s[k])
  {
    var lo, hi := s[..k], s[k..];
    assert s == lo + hi;
    CountAppend(lo, hi, s[k]);
    CountNone(hi, s[k]);
    assert s == s[..k + 1] + s[k + 1..];
    CountAppend(s[..k + 1], s[k + 1..], s[k] + 1);
    CountAll(s[..k + 1], s[k] + 1);
  }

  lemma {:induction false} CountNone(s: seq<nat>, v: nat)
    requires forall i :: 0 <= i < |s| ==> s[i] >= v
    ensures CountBelow(s, v) == 0
  {
    if s != [] {
      CountNone(s[1..], v);
    }
  }

  lemma {:induction false} CountAll(s: seq<nat>, v: nat)
    requires forall i :: 0 <= i < |s| ==> s[i] < v
    ensures CountBelow(s, v) == |s|
  {
    if s != [] {
      CountAll(s[1..], v);
    }
  }

  /** Any sorted rearrangement has at index `k` the element of rank `k`: the choice of sort does not matter. */
  lemma SortGivesRank(s: seq<nat>, t: seq<nat>, k: nat)
    requires multiset(s) == multiset(t) && Sorted(t) && k < |t|
    ensures HasRank(s, k, t[k])
  {
    SortedRank(t, k);
    CountOfPermutation(s, t, t[k]);
    CountOfPermutation(s, t, t[k] + 1);
    assert t[k] in multiset(t);
  }

  // ----- The oracle -----

  /** The last `n` elements, or all of them. */
  function LastOf<T>(s: seq<T>, n: nat): seq<T> {
    if |s| <= n then s else s[|s| - n..]
  }

  function Reversed<T>(s: seq<T>): seq<T> {
    seq(|s|, i requires 0 <= i < |s| => s[|s| - 1 - i])
  }

  /** `u128_to_u64_saturating`. */
  function Saturate64(v: nat): (r: U64)
    ensures r <= v && (v < TWO_64 ==> r == v) && (v >= TWO_64 ==> r == TWO_64 - 1)
  {
    if v > TWO_64 - 1 then TWO_64 - 1 else v
  }

  function SaturatingAdd128(a: U128, b: U128): (r: U128)
    ensures r <= a + b && (a + b < TWO_128 ==> r == a + b) && (a + b >= TWO_128 ==> r == TWO_128 - 1)
  {
    if a + b < TWO_128 then a + b else TWO_128 - 1
  }

  datatype GasEstimate = GasEstimate(baseFeeGwei: real, priorityFeeGwei: real, recommendedTotalGwei: real)

  function Gwei(wei: nat): (gwei: real)
    ensures gwei * 1_000_000_000.0 == wei as real
  {
    wei as real / 1_000_000_000.0
  }

  /** `((m - 1) * 0.90).round()`: rounding half away from zero is floor after adding a half. */
  function PercentileIndex(m: nat): (i: nat)
    requires m > 0
    ensures i < m && 10 * i <= 9 * (m - 1) + 5 < 10 * (i + 1)
  {
    ((m - 1) as real * 0.90 + 0.5).Floor
  }

  /** `f` is the recommended fee after the priority fees `h`: the saturated order statistic of the last twenty. */
  ghost predicate Recommended(h: seq<nat>, f: U64) {
    && h != []
    && exists v :: HasRank(LastOf(h, WINDOW), PercentileIndex(|LastOf(h, WINDOW)|), v) && f == Saturate64(v)
  }

  lemma RecommendedIsUnique(h: seq<nat>, f: U64, g: U64)
    requires Recommended(h, f) && Recommended(h, g)
    ensures f == g
  {
    var s := LastOf(h, WINDOW);
    var k := PercentileIndex(|s|);
    var v :| HasRank(s, k, v) && f == Saturate64(v);
    var w :| HasRank(s, k, w) && g == Saturate64(w);
    RankIsUnique(s, k, v, w);
  }

  /** Raising any samples of a history never lowers the recommended fee. */
  lemma RecommendedIsMonotone(h: seq<nat>, g: seq<nat>, f: U64, f': U64)
    requires |h| == |g| && forall i :: 0 <= i < |h| ==> h[i] <= g[i]
    requires Recommended(h, f) && Recommended(g, f')
    ensures f <= f'
  {
    var s, t := LastOf(h, WINDOW), LastOf(g, WINDOW);
    var k := PercentileIndex(|s|);
    var v :| HasRank(s, k, v) && f == Saturate64(v);
    var w :| HasRank(t, k, w) && f' == Saturate64(w);
    RankIsMonotone(s, t, k, v, w);
  }

  /** The recommended fee read off any sorted rearrangement of the last twenty samples, with the numbers written out. */
  lemma RecommendedIsSortedElement(h: seq<nat>, f: U64, recent: seq<nat>, sorted: seq<nat>)
    requires h != [] && recent == (if |h| <= 20 then h else h[|h| - 20..])
    requires Sorted(sorted) && multiset(sorted) == multiset(recent)
    ensures |sorted| == |recent| && (9 * (|sorted| - 1) + 5) / 10 < |sorted|
    ensures Recommended(h, f) <==>
            var v := sorted[(9 * (|sorted| - 1) + 5) / 10];
            f == if v < 0x1_0000_0000_0000_0000 then v else 0xffff_ffff_ffff_ffff
  {
    SameLength(sorted, recent);
    var k := PercentileIndex(|recent|);
    assert recent == LastOf(h, WINDOW) && k == (9 * (|sorted| - 1) + 5) / 10;
    SortGivesRank(recent, sorted, k);
    assert HasRank(LastOf(h, WINDOW), PercentileIndex(|LastOf(h, WINDOW)|), sorted[k]);
    if Recommended(h, f) {
      var v :| HasRank(recent, k, v) && f == Saturate64(v);
      RankIsUnique(recent, k, v, sorted[k]);
    }
  }

  /** `sort_unstable`, by insertion. */
  method SortSamples(samples: seq<nat>) returns (sorted: seq<nat>)
    ensures Sorted(sorted) && multiset(sorted) == multiset(samples)
  {
    sorted := [];
    for i := 0 to |samples|
      invariant Sorted(sorted) && multiset(sorted) == multiset(samples[..i])
    {
      var x := samples[i];
      var k := |sorted|;
      while k > 0 && sorted[k - 1] > x
        invariant 0 <= k <= |sorted| && forall j :: k <= j < |sorted| ==> sorted[j] > x
      {
        k := k - 1;
      }
      InsertKeepsSorted(sorted, k, x);
      InsertAdds(sorted, k, x);
      assert samples[..i + 1] == samples[..i] + [x];
      sorted := sorted[..k] + [x] + sorted[k..];
    }
    assert samples[..|samples|] == samples;
  }

  lemma InsertKeepsSorted(s: seq<nat>, k: nat, x: nat)
    requires Sorted(s) && k <= |s| && (k > 0 ==> s[k - 1] <= x) && (k < |s| ==> x < s[k])
    ensures Sorted(s[..k] + [x] + s[k..])
  {
    var t := s[..k] + [x] + s[k..];
    assert forall i :: 0 <= i < |t| ==> t[i] == if i < k then s[i] else if i == k then x else s[i - 1];
    assert forall i :: 0 <= i < k ==> s[i] <= x;
    assert forall i :: k <= i < |s| ==> x < s[i];
  }

  lemma InsertAdds(s: seq<nat>, k: nat, x: nat)
    requires k <= |s|
    ensures multiset(s[..k] + [x] + s[k..]) == multiset(s) + multiset{x}
  {
    assert s == s[..k] + s[k..];
  }

  class Oracle {
    var baseFees: seq<U128>
    var priorityFees: seq<U128>
    var lastBaseFee: U128
    var lastPriorityFee: U128
    /** Every sample ever pushed. */
    ghost var baseHistory: seq<U128>
    ghost var priorityHistory: seq<U128>

    ghost predicate Valid()
      reads this
    {
      && |baseHistory| == |priorityHistory|
      && baseFees == LastOf(baseHistory, RING) && priorityFees == LastOf(priorityHistory, RING)
      && lastBaseFee == (if baseHistory == [] then 0 else baseHistory[|baseHistory| - 1])
      && lastPriorityFee == (if priorityHistory == [] then 0 else priorityHistory[|priorityHistory| - 1])
    }

    constructor ()
      ensures Valid() && baseHistory == [] && priorityHistory == []
    {
      baseFees, priorityFees, lastBaseFee, lastPriorityFee := [], [], 0, 0;
      baseHistory, priorityHistory := [], [];
    }

    /** `push_sample`. */
    method PushSample(baseFee: U128, priorityFee: U128)
      requires Valid()
      modifies this
      ensures Valid()
      ensures |baseFees| == |priorityFees| == if |baseHistory| <= 100 then |baseHistory| else 100
      ensures baseFees == baseHistory[|baseHistory| - |baseFees|..]
      ensures priorityFees == priorityHistory[|priorityHistory| - |priorityFees|..]
      ensures baseHistory == old(baseHistory) + [baseFee] && priorityHistory == old(priorityHistory) + [priorityFee]
    {
      lastBaseFee := baseFee;
      lastPriorityFee := priorityFee;
      LastOfPush(baseHistory, baseFee, RING);
      LastOfPush(priorityHistory, priorityFee, RING);
      if |baseFees| == RING {
        baseFees := baseFees[1..];
      }
      if |priorityFees| == RING {
        priorityFees := priorityFees[1..];
      }
      baseFees := baseFees + [baseFee];
      priorityFees := priorityFees + [priorityFee];
      baseHistory := baseHistory + [baseFee];
      priorityHistory := priorityHistory + [priorityFee];
    }

    /** `get_recommended_priority_fee`. */
    method RecommendedPriorityFee() returns (fee: U64)
      requires Valid()
      ensures priorityHistory == [] ==> fee == 0
      ensures priorityHistory != [] ==> Recommended(priorityHistory, fee)
    {
      var samples: seq<nat> := Reversed(LastOf(priorityFees, WINDOW));
      if samples == [] {
        return Saturate64(lastPriorityFee);
      }
      var sorted := SortSamples(samples);
      ghost var recent: seq<nat> := LastOf(priorityHistory, WINDOW);
      assert recent == LastOf(priorityFees, WINDOW);
      assert samples == Reversed<nat>(recent);
      ReversedPermutes(recent);
      SameLength(sorted, samples);
      var idx := PercentileIndex(|sorted|);
      SortGivesRank(recent, sorted, idx);
      fee := Saturate64(sorted[idx]);
    }

    /** `get_current_gas_estimate`: base fee, priority fee and their saturating sum, in gwei. */
    method CurrentGasEstimate() returns (estimate: GasEstimate)
      requires Valid()
      ensures priorityHistory == [] ==> estimate == GasEstimate(0.0, 0.0, 0.0)
      ensures priorityHistory != [] ==>
                exists fee: U64 ::
                  && Recommended(priorityHistory, fee)
                  && var base := baseHistory[|baseHistory| - 1];
                     estimate == GasEstimate(Gwei(base), Gwei(fee), Gwei(SaturatingAdd128(base, fee)))
    {
      var priority := RecommendedPriorityFee();
      var total := SaturatingAdd128(lastBaseFee, priority);
      estimate := GasEstimate(Gwei(lastBaseFee), Gwei(priority), Gwei(total));
    }
  }

  /** A ring that drops its oldest element when full holds the last `n` of everything pushed. */
  lemma LastOfPush(h: seq<U128>, x: U128, n: nat)
    requires n > 0
    ensures var ring := LastOf(h, n);
            LastOf(h + [x], n) == (if |ring| == n then ring[1..] else ring) + [x]
  {
  }

  lemma SameLength(s: seq<nat>, t: seq<nat>)
    requires multiset(s) == multiset(t)
    ensures |s| == |t|
  {
    assert |multiset(s)| == |s| && |multiset(t)| == |t|;
  }

  lemma {:induction false} ReversedPermutes(s: seq<nat>)
    ensures multiset(Reversed(s)) == multiset(s)
  {
    if s != [] {
      var init := s[..|s| - 1];
      ReversedPermutes(init);
      assert Reversed(s) == [s[|s| - 1]] + Reversed(init);
      assert s == init + [s[|s| - 1]];
    }
  }
}
