/**
 Start-up: configured addresses without repetition, and every unordered pair of them once.
 */
module PairEnumeration {
  import opened Words

  ghost predicate Distinct<T>(s: seq<T>) {
    forall i, j :: 0 <= i < j < |s| ==> s[i] != s[j]
  }

  /** Position of the first occurrence. */
  function FirstAt(s: seq<Address>, a: Address): (i: nat)
    requires a in s
    ensures i < |s| && s[i] == a && a !in s[..i]
  {
    if s[0] == a then 0 else 1 + FirstAt(s[1..], a)
  }

  /** `unique_addresses`: each address once, in order of first occurrence. */
  method UniqueAddresses(addresses: seq<Address>) returns (out: seq<Address>)
    ensures Distinct(out)
    ensures forall a :: a in out <==> a in addresses
    ensures forall i, j :: 0 <= i < j < |out| ==> FirstAt(addresses, out[i]) < FirstAt(addresses, out[j])
  {
    var seen: set<Address> := {};
    out := [];
    for k := 0 to |addresses|
      invariant forall a :: a in seen <==> a in out
      invariant forall a :: a in out <==> a in addresses[..k]
      invariant forall i :: 0 <= i < |out| ==> out[i] in addresses
      invariant Distinct(out)
      invariant forall i, j :: 0 <= i < j < |out| ==> FirstAt(addresses, out[i]) < FirstAt(addresses, out[j])
    {
      var a := addresses[k];
      assert addresses[..k + 1] == addresses[..k] + [a];
      if a !in seen {
        seen := seen + {a};
        FirstAtIs(addresses, k);
        forall i | 0 <= i < |out| ensures FirstAt(addresses, out[i]) < k {
          assert out[i] in out;
          FirstAtBelow(addresses, out[i], k);
        }
        out := out + [a];
      }
    }
    assert addresses[..|addresses|] == addresses;
  }

  lemma FirstAtIs(s: seq<Address>, k: nat)
    requires k < |s| && s[k] !in s[..k]
    ensures FirstAt(s, s[k]) == k
  {
    if k > 0 {
      assert s[0] in s[..k] && s[1..][..k - 1] == s[..k][1..];
      FirstAtIs(s[1..], k - 1);
    }
  }

  lemma FirstAtBelow(s: seq<Address>, a: Address, k: nat)
    requires k <= |s| && a in s[..k]
    ensures FirstAt(s, a) < k
  {
    if s[0] != a {
      assert s[1..][..k - 1] == s[..k][1..];
      FirstAtBelow(s[1..], a, k - 1);
    }
  }

  /** Indices of a pair: the first below the second. */
  ghost predicate IndexPair(x: (nat, nat), n: nat) {
    x.0 < x.1 < n
  }

  predicate Before(x: (nat, nat), y: (nat, nat)) {
    x.0 < y.0 || (x.0 == y.0 && x.1 < y.1)
  }

  /** The inner pair-building loop of `main`: one pool with every later one. */
  method Row(pools: seq<Address>, i: nat) returns (row: seq<(Address, Address)>)
    requires i < |pools|
    ensures |row| == |pools| - i - 1
    ensures forall k :: 0 <= k < |row| ==> row[k] == (pools[i], pools[i + 1 + k])
  {
    row := [];
    for j := i + 1 to |pools|
      invariant |row| == j - i - 1
      invariant forall k :: 0 <= k < |row| ==> row[k] == (pools[i], pools[i + 1 + k])
    {
      row := row + [(pools[i], pools[j])];
    }
  }

  /** The outer loop: every unordered pair of distinct configured pools, exactly once. */
  method BuildPairs(addresses: seq<Address>) returns (pairs: seq<(Address, Address)>, pools: seq<Address>)
    ensures Distinct(pools) && forall a :: a in pools <==> a in addresses
    ensures 2 * |pairs| == |pools| * (|pools| - 1)
    ensures forall k :: 0 <= k < |pairs| ==>
              pairs[k].0 in addresses && pairs[k].1 in addresses && pairs[k].0 != pairs[k].1
    ensures forall a, b :: a in addresses && b in addresses && a != b ==> (a, b) in pairs || (b, a) in pairs
    ensures forall i, j :: 0 <= i < j < |pairs| ==> pairs[i] != pairs[j] && pairs[i] != (pairs[j].1, pairs[j].0)
  {
    pools := UniqueAddresses(addresses);
    ghost var at;
    pairs, at := PairUp(pools);
    Unlisted(addresses, pools, pairs, at);
    PairCountIs(|pools|, |pools|);
  }

  /** Every pair of positions, row by row. */
  method PairUp(pools: seq<Address>) returns (pairs: seq<(Address, Address)>, ghost at: seq<(nat, nat)>)
    ensures Listed(pools, pairs, at) && Rows(at, |pools|, |pools|) && |pairs| == PairCount(|pools|, |pools|)
  {
    pairs, at := [], [];
    var n := |pools|;
    for i := 0 to n
      invariant Listed(pools, pairs, at) && Rows(at, i, n) && |pairs| == PairCount(i, n)
    {
      var row := Row(pools, i);
      NextRowIsListed(pools, pairs, at, i, row);
      NextRowIsThere(at, i, n);
      pairs, at := pairs + row, at + RowIndices(i, n);
    }
  }

  ghost function RowIndices(i: nat, n: nat): seq<(nat, nat)>
    requires i < n
  {
    seq(n - i - 1, k requires k >= 0 => (i, i + 1 + k))
  }

  /** All index pairs of the first `i` rows are there, and only they. */
  ghost predicate Rows(at: seq<(nat, nat)>, i: nat, n: nat) {
    && (forall x: nat, y: nat :: x < i && x < y < n ==> (x, y) in at)
    && (forall k :: 0 <= k < |at| ==> at[k].0 < i)
  }

  lemma NextRowIsListed(pools: seq<Address>, pairs: seq<(Address, Address)>, at: seq<(nat, nat)>, i: nat,
                        row: seq<(Address, Address)>)
    requires i < |pools| && Listed(pools, pairs, at) && Rows(at, i, |pools|)
    requires |row| == |pools| - i - 1 && forall k :: 0 <= k < |row| ==> row[k] == (pools[i], pools[i + 1 + k])
    ensures Listed(pools, pairs + row, at + RowIndices(i, |pools|))
  {
  }

  lemma NextRowIsThere(at: seq<(nat, nat)>, i: nat, n: nat)
    requires i < n && Rows(at, i, n)
    ensures Rows(at + RowIndices(i, n), i + 1, n)
  {
    var next := RowIndices(i, n);
    forall x: nat, y: nat | x < i + 1 && x < y < n
      ensures (x, y) in at + next
    {
      if x == i {
        assert next[y - i - 1] == (x, y);
      } else {
        assert (x, y) in at;
      }
    }
  }

  /** How many pairs the first `i` rows hold. */
  function PairCount(i: nat, n: nat): nat
    requires i <= n
  {
    if i == 0 then 0 else PairCount(i - 1, n) + (n - i)
  }

  lemma {:induction false} PairCountIs(i: nat, n: nat)
    requires i <= n
    ensures 2 * PairCount(i, n) == i * (2 * n - i - 1)
  {
    if i > 0 {
      PairCountIs(i - 1, n);
    }
  }

  /** The pairs are those at increasing index pairs. */
  ghost predicate Listed(pools: seq<Address>, pairs: seq<(Address, Address)>, at: seq<(nat, nat)>) {
    && |at| == |pairs|
    && (forall k :: 0 <= k < |at| ==> IndexPair(at[k], |pools|) && pairs[k] == (pools[at[k].0], pools[at[k].1]))
    && (forall k, l :: 0 <= k < l < |at| ==> Before(at[k], at[l]))
  }

  lemma Unlisted(addresses: seq<Address>, pools: seq<Address>, pairs: seq<(Address, Address)>, at: seq<(nat, nat)>)
    requires Distinct(pools) && forall a :: a in pools <==> a in addresses
    requires Listed(pools, pairs, at) && Rows(at, |pools|, |pools|)
    ensures forall k :: 0 <= k < |pairs| ==>
              pairs[k].0 in addresses && pairs[k].1 in addresses && pairs[k].0 != pairs[k].1
    ensures forall a, b :: a in addresses && b in addresses && a != b ==> (a, b) in pairs || (b, a) in pairs
    ensures forall i, j :: 0 <= i < j < |pairs| ==> pairs[i] != pairs[j] && pairs[i] != (pairs[j].1, pairs[j].0)
  {
    forall a, b | a in addresses && b in addresses && a != b
      ensures (a, b) in pairs || (b, a) in pairs
    {
      var x :| 0 <= x < |pools| && pools[x] == a;
      var y :| 0 <= y < |pools| && pools[y] == b;
      var lo, hi := if x < y then x else y, if x < y then y else x;
      assert (lo, hi) in at;
      var k :| 0 <= k < |at| && at[k] == (lo, hi);
      assert pairs[k] == (pools[lo], pools[hi]);
    }
    forall k | 0 <= k < |pairs|
      ensures pairs[k].0 in addresses && pairs[k].1 in addresses && pairs[k].0 != pairs[k].1
    {
      assert IndexPair(at[k], |pools|);
      assert pools[at[k].0] in pools && pools[at[k].1] in pools;
    }
    forall i, j | 0 <= i < j < |pairs|
      ensures pairs[i] != pairs[j] && pairs[i] != (pairs[j].1, pairs[j].0)
    {
      assert IndexPair(at[i], |pools|) && IndexPair(at[j], |pools|) && Before(at[i], at[j]);
    }
  }
}
