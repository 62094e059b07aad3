/**
 The wei printer of the API. Printing is read back exactly, and the printed texts are exactly the
 canonical decimals with at most eighteen fraction digits, so printing is a bijection onto them.
 */
module WeiText {
  import opened Words

  const DECIMALS: nat := 18

  // ----- The printer -----

  function DigitChar(d: nat): (c: char)
    requires d < 10
    ensures '0' <= c <= '9'
  {
    '0' + d as char
  }

  /** `to_string` of an unsigned integer. */
  function Digits(n: nat): string {
    if n < 10 then [DigitChar(n)] else Digits(n / 10) + [DigitChar(n % 10)]
  }

  /** `"0".repeat(k)`. */
  function Zeros(k: nat): (s: string)
    ensures |s| == k && forall i :: 0 <= i < k ==> s[i] == '0'
  {
    seq(k, _ => '0')
  }

  /** How many of the first `n` characters are left without their trailing zeros. */
  function TrimTo(s: string, n: nat): (t: nat)
    requires n <= |s|
    ensures t <= n && (t > 0 ==> s[t - 1] != '0') && forall i :: t <= i < n ==> s[i] == '0'
  {
    if n > 0 && s[n - 1] == '0' then TrimTo(s, n - 1) else n
  }

  /** `trim_end_matches('0')`. */
  function Trim(s: string): string {
    s[..TrimTo(s, |s|)]
  }

  function FormatWei(wei: nat): string {
    var s := Digits(wei);
    if s == "0" then "0"
    else if |s| <= DECIMALS then
      var frac := Trim(Zeros(DECIMALS - |s|) + s);
      if frac == "" then "0" else "0." + frac
    else
      var intPart, fracPart := s[..|s| - DECIMALS], s[|s| - DECIMALS..];
      var frac := Trim(fracPart);
      if frac == "" then intPart else intPart + "." + frac
  }

  // ----- The reader -----

  predicate AllDigits(s: string) {
    forall i :: 0 <= i < |s| ==> '0' <= s[i] <= '9'
  }

  function DigitVal(c: char): nat {
    if '0' <= c <= '9' then (c - '0') as nat else 0
  }

  /** The number the first `n` digits stand for. */
  function ValTo(s: string, n: nat): nat
    requires n <= |s|
  {
    if n == 0 then 0 else 10 * ValTo(s, n - 1) + DigitVal(s[n - 1])
  }

  function Val(s: string): nat {
    ValTo(s, |s|)
  }

  function PointFrom(text: string, i: nat): (p: nat)
    requires i <= |text|
    ensures i <= p <= |text| && (p < |text| ==> text[p] == '.') && forall j :: i <= j < p ==> text[j] != '.'
    decreases |text| - i
  {
    if i == |text| || text[i] == '.' then i else PointFrom(text, i + 1)
  }

  /** Where the first point is, or the length when there is none. */
  function Point(text: string): (p: nat)
    ensures p <= |text| && (p < |text| ==> text[p] == '.') && forall j :: 0 <= j < p ==> text[j] != '.'
  {
    PointFrom(text, 0)
  }

  function IntPart(text: string): string {
    text[..Point(text)]
  }

  function FracPart(text: string): string {
    if Point(text) < |text| then text[Point(text) + 1..] else ""
  }

  /** A decimal number of ETH, in wei; refused when it is no decimal or finer than one wei. */
  function ReadEth(text: string): Option<nat> {
    var i, f := IntPart(text), FracPart(text);
    if i != "" && AllDigits(i) && AllDigits(f) && |f| <= DECIMALS
    then Some(Amount(i, f))
    else None
  }

  function Amount(i: string, f: string): nat
    requires |f| <= DECIMALS
  {
    Val(i) * ONE_ETHER + Val(f) * Pow10(DECIMALS - |f|)
  }

  predicate NoLeadingZero(s: string) {
    AllDigits(s) && s != "" && (s[0] == '0' ==> |s| == 1)
  }

  predicate NoTrailingZero(s: string) {
    AllDigits(s) && (s != "" ==> s[|s| - 1] != '0')
  }

  /** No leading zero, no trailing fraction zero, no bare point, at most eighteen fraction digits. */
  predicate Canonical(text: string) {
    && NoLeadingZero(IntPart(text)) && NoTrailingZero(FracPart(text)) && |FracPart(text)| <= DECIMALS
    && (Point(text) < |text| ==> FracPart(text) != "")
  }

  // ----- Digit strings and numbers -----

  lemma OneEther(k: nat)
    requires k == DECIMALS
    ensures Pow10(k) == ONE_ETHER
  {
    assert Pow10(6) == 1_000_000;
    assert Pow10(12) == 1_000_000_000_000;
  }

  lemma Glue(a: nat, p: nat, b: nat, d: nat)
    ensures 10 * (a * p + b) + d == a * (10 * p) + (10 * b + d)
  {
  }

  /** Only the characters read count. */
  lemma {:induction false} ValAgrees(a: string, b: string, n: nat)
    requires n <= |a| && n <= |b| && forall i :: 0 <= i < n ==> a[i] == b[i]
    ensures ValTo(a, n) == ValTo(b, n)
  {
    if n > 0 {
      ValAgrees(a, b, n - 1);
    }
  }

  lemma {:induction false} ValConcatTo(a: string, b: string, n: nat)
    requires n <= |b|
    ensures ValTo(a + b, |a| + n) == Val(a) * Pow10(n) + ValTo(b, n)
  {
    if n == 0 {
      ValAgrees(a + b, a, |a|);
    } else {
      ValConcatTo(a, b, n - 1);
      Glue(Val(a), Pow10(n - 1), ValTo(b, n - 1), DigitVal(b[n - 1]));
    }
  }

  lemma ValConcat(a: string, b: string)
    ensures Val(a + b) == Val(a) * Pow10(|b|) + Val(b)
  {
    ValConcatTo(a, b, |b|);
  }

  lemma {:induction false} ValBelow(s: string, n: nat)
    requires n <= |s|
    ensures ValTo(s, n) < Pow10(n)
  {
    if n > 0 {
      ValBelow(s, n - 1);
    }
  }

  lemma {:induction false} ValDetermines(a: string, b: string, n: nat)
    requires AllDigits(a) && AllDigits(b) && n <= |a| && n <= |b| && ValTo(a, n) == ValTo(b, n)
    ensures forall i :: 0 <= i < n ==> a[i] == b[i]
  {
    if n > 0 {
      ValDetermines(a, b, n - 1);
    }
  }

  lemma {:induction false} ZerosAreZero(k: nat, n: nat)
    requires n <= k
    ensures ValTo(Zeros(k), n) == 0
  {
    if n > 0 {
      ZerosAreZero(k, n - 1);
    }
  }

  lemma {:induction false} DigitsAreCanonical(n: nat)
    ensures NoLeadingZero(Digits(n)) && Val(Digits(n)) == n && (n > 0 ==> Digits(n)[0] != '0')
  {
    if n >= 10 {
      DigitsAreCanonical(n / 10);
      ValAgrees(Digits(n), Digits(n / 10), |Digits(n / 10)|);
    } else {
      assert ValTo(Digits(n), 0) == 0 && ValTo(Digits(n), 1) == n;
    }
  }

  lemma Snoc(s: string, n: nat)
    requires 0 < n <= |s|
    ensures s[..n] == s[..n - 1] + [s[n - 1]]
  {
  }

  lemma {:induction false} LeadingDigitCounts(s: string, n: nat)
    requires AllDigits(s) && 0 < n <= |s| && s[0] != '0'
    ensures ValTo(s, n) > 0
  {
    if n > 1 {
      LeadingDigitCounts(s, n - 1);
    }
  }

  lemma {:induction false} DigitsInvertTo(s: string, n: nat)
    requires NoLeadingZero(s) && 0 < n <= |s|
    ensures Digits(ValTo(s, n)) == s[..n]
  {
    Snoc(s, n);
    if n > 1 {
      DigitsInvertTo(s, n - 1);
      LeadingDigitCounts(s, n - 1);
      DigitsSnoc(ValTo(s, n - 1), s[n - 1]);
    } else {
      assert s[..0] == "" && ValTo(s, 1) == DigitVal(s[0]);
    }
  }

  lemma DigitsSnoc(v: nat, c: char)
    requires v > 0 && '0' <= c <= '9'
    ensures Digits(10 * v + DigitVal(c)) == Digits(v) + [c]
  {
  }

  lemma DigitsInvertVal(s: string)
    requires NoLeadingZero(s)
    ensures Digits(Val(s)) == s
  {
    DigitsInvertTo(s, |s|);
    assert s[..|s|] == s;
  }

  // ----- Padding and trimming -----

  /** A number below `10^18` as exactly eighteen digits. */
  function Padded(x: nat): string
    requires |Digits(x)| <= DECIMALS
  {
    Zeros(DECIMALS - |Digits(x)|) + Digits(x)
  }

  lemma {:induction false} DigitsFit(x: nat, k: nat)
    ensures k > 0 && x < Pow10(k) <==> |Digits(x)| <= k
  {
    if k > 1 && x >= 10 {
      DigitsFit(x / 10, k - 1);
    }
  }

  lemma EighteenDigits(x: nat)
    ensures |Digits(x)| <= DECIMALS <==> x < ONE_ETHER
  {
    var k := DECIMALS;
    DigitsFit(x, k);
    OneEther(k);
  }

  lemma LeadingZerosAdd(z: string, d: string)
    requires Val(z) == 0
    ensures Val(z + d) == Val(d)
  {
    ValConcat(z, d);
  }

  lemma PaddedIs(x: nat)
    requires |Digits(x)| <= DECIMALS
    ensures |Padded(x)| == DECIMALS && AllDigits(Padded(x)) && Val(Padded(x)) == x
  {
    var k := DECIMALS - |Digits(x)|;
    DigitsAreCanonical(x);
    ZerosAreZero(k, k);
    LeadingZerosAdd(Zeros(k), Digits(x));
  }

  /** Eighteen digits are the padded form of their value. */
  lemma PaddedIsUnique(f: string)
    requires AllDigits(f) && |f| == DECIMALS
    ensures Val(f) < ONE_ETHER && |Digits(Val(f))| <= DECIMALS && Padded(Val(f)) == f
  {
    ValBelow(f, |f|);
    OneEther(|f|);
    EighteenDigits(Val(f));
    PaddedIs(Val(f));
    ValDetermines(f, Padded(Val(f)), |f|);
  }

  lemma {:induction false} TrimScalesTo(s: string, n: nat)
    requires n <= |s|
    ensures ValTo(s, n) == ValTo(s, TrimTo(s, n)) * Pow10(n - TrimTo(s, n))
  {
    if n > 0 && s[n - 1] == '0' {
      TrimScalesTo(s, n - 1);
      Glue(ValTo(s, TrimTo(s, n)), Pow10(n - 1 - TrimTo(s, n)), 0, 0);
    }
  }

  /** Dropping trailing zeros divides by the matching power of ten. */
  lemma TrimScales(s: string)
    ensures |Trim(s)| <= |s| && Val(s) == Val(Trim(s)) * Pow10(|s| - |Trim(s)|)
  {
    TrimScalesTo(s, |s|);
    ValAgrees(s, Trim(s), |Trim(s)|);
  }

  lemma TrimIsCanonical(s: string)
    requires AllDigits(s)
    ensures NoTrailingZero(Trim(s))
  {
  }

  lemma TrimDropsZeros(f: string, k: nat)
    requires NoTrailingZero(f)
    ensures Trim(f + Zeros(k)) == f
  {
    var s := f + Zeros(k);
    assert forall j :: |f| <= j < |s| ==> s[j] == '0';
    assert f != "" ==> s[|f| - 1] != '0';
    assert TrimTo(s, |s|) == |f|;
  }

  // ----- The printed text by its two parts -----

  function Text(i: string, f: string): string {
    if f == "" then i else i + "." + f
  }

  /** The printer writes whole ETH, then the remaining wei as eighteen digits without trailing zeros. */
  lemma FormatByParts(wei: nat)
    ensures |Digits(wei % ONE_ETHER)| <= DECIMALS
    ensures FormatWei(wei) == Text(Digits(wei / ONE_ETHER), Trim(Padded(wei % ONE_ETHER)))
  {
    if |Digits(wei)| <= DECIMALS {
      ShortText(wei);
    } else {
      LongText(wei);
    }
  }

  lemma ShortText(wei: nat)
    requires |Digits(wei)| <= DECIMALS
    ensures wei < ONE_ETHER && wei / ONE_ETHER == 0 && wei % ONE_ETHER == wei
    ensures FormatWei(wei) == Text("0", Trim(Padded(wei)))
  {
    EighteenDigits(wei);
    if wei == 0 {
      ZeroTrims();
    } else {
      DigitsAreCanonical(wei);
      assert Digits(wei)[0] != "0"[0];
    }
  }

  lemma ZeroTrims()
    ensures |Digits(0)| == 1 && Trim(Padded(0)) == ""
  {
    assert Padded(0) == "" + Zeros(DECIMALS);
    TrimDropsZeros("", DECIMALS);
  }

  lemma LongText(wei: nat)
    requires |Digits(wei)| > DECIMALS
    ensures |Digits(wei % ONE_ETHER)| <= DECIMALS
    ensures FormatWei(wei) == Text(Digits(wei / ONE_ETHER), Trim(Padded(wei % ONE_ETHER)))
  {
    DigitsAreCanonical(wei);
    var s := Digits(wei);
    var i, f := s[..|s| - DECIMALS], s[|s| - DECIMALS..];
    assert s == i + f;
    assert NoLeadingZero(i);
    WholeAndRest(i, f);
    DigitsInvertVal(i);
  }

  /** A digit string split eighteen places from its end is split at whole ETH. */
  lemma WholeAndRest(i: string, f: string)
    requires AllDigits(f) && |f| == DECIMALS
    ensures Val(i + f) / ONE_ETHER == Val(i) && Val(i + f) % ONE_ETHER == Val(f)
    ensures |Digits(Val(f))| <= DECIMALS && Padded(Val(f)) == f
  {
    ValConcat(i, f);
    OneEther(|f|);
    PaddedIsUnique(f);
    QuotientAndRest(Val(i + f), Val(i), Val(f));
  }

  lemma QuotientAndRest(wei: nat, q: nat, r: nat)
    requires wei == q * ONE_ETHER + r && r < ONE_ETHER
    ensures wei / ONE_ETHER == q && wei % ONE_ETHER == r
  {
  }

  // ----- Reading it back -----

  lemma TextParts(i: string, f: string)
    requires AllDigits(i) && AllDigits(f)
    ensures IntPart(Text(i, f)) == i && FracPart(Text(i, f)) == f
    ensures Point(Text(i, f)) < |Text(i, f)| ==> f != ""
  {
    var text := Text(i, f);
    assert forall j :: 0 <= j < |i| ==> text[j] == i[j];
    assert f != "" ==> text[|i|] == '.';
    assert Point(text) == |i|;
  }

  /** For every amount the printed text is canonical and reads back as that amount. */
  lemma FormatRoundTrips(wei: nat)
    ensures Canonical(FormatWei(wei))
    ensures ReadEth(FormatWei(wei)) == Some(wei)
  {
    FormatByParts(wei);
    var i, f := Digits(wei / ONE_ETHER), Trim(Padded(wei % ONE_ETHER));
    PartsAre(wei);
    TextParts(i, f);
  }

  lemma PartsAre(wei: nat)
    requires |Digits(wei % ONE_ETHER)| <= DECIMALS
    ensures var i, f := Digits(wei / ONE_ETHER), Trim(Padded(wei % ONE_ETHER));
            NoLeadingZero(i) && NoTrailingZero(f) && |f| <= DECIMALS && Amount(i, f) == wei
  {
    var r := wei % ONE_ETHER;
    DigitsAreCanonical(wei / ONE_ETHER);
    PaddedIs(r);
    TrimIsCanonical(Padded(r));
    TrimScales(Padded(r));
  }

  /** Every canonical text is the print of the amount it reads as. */
  lemma CanonicalIsPrinted(text: string)
    requires Canonical(text)
    ensures ReadEth(text).Some? && FormatWei(ReadEth(text).value) == text
  {
    TextRebuilt(text);
    PartsPrinted(IntPart(text), FracPart(text));
  }

  lemma TextRebuilt(text: string)
    requires Point(text) < |text| ==> FracPart(text) != ""
    ensures text == Text(IntPart(text), FracPart(text))
  {
    if Point(text) < |text| {
      SplitAt(text, Point(text));
    } else {
      WholePrefix(text, |text|);
    }
  }

  lemma SplitAt(s: string, p: nat)
    requires p < |s|
    ensures s == s[..p] + [s[p]] + s[p + 1..]
  {
  }

  lemma WholePrefix(s: string, p: nat)
    requires p == |s|
    ensures s[..p] == s
  {
  }

  lemma PartsPrinted(i: string, f: string)
    requires NoLeadingZero(i) && NoTrailingZero(f) && |f| <= DECIMALS
    ensures FormatWei(Amount(i, f)) == Text(i, f)
  {
    AmountOfParts(i, f);
    DigitsInvertVal(i);
    TrimDropsZeros(f, DECIMALS - |f|);
    PrintedFrom(Amount(i, f), i, f + Zeros(DECIMALS - |f|), f);
  }

  lemma PrintedFrom(wei: nat, i: string, filled: string, f: string)
    requires Digits(wei / ONE_ETHER) == i && Trim(filled) == f
    requires |Digits(wei % ONE_ETHER)| <= DECIMALS && Padded(wei % ONE_ETHER) == filled
    ensures FormatWei(wei) == Text(i, f)
  {
    FormatByParts(wei);
  }

  /** The amount of two parts, and its own two parts. */
  lemma AmountOfParts(i: string, f: string)
    requires AllDigits(f) && |f| <= DECIMALS
    ensures Amount(i, f) / ONE_ETHER == Val(i) && |Digits(Amount(i, f) % ONE_ETHER)| <= DECIMALS
    ensures Padded(Amount(i, f) % ONE_ETHER) == f + Zeros(DECIMALS - |f|)
  {
    var filled := f + Zeros(DECIMALS - |f|);
    FilledValue(f, DECIMALS - |f|);
    PaddedIsUnique(filled);
    QuotientAndRest(Amount(i, f), Val(i), Val(filled));
  }

  lemma FilledValue(f: string, k: nat)
    ensures Val(f + Zeros(k)) == Val(f) * Pow10(k)
  {
    ValConcat(f, Zeros(k));
    ZerosAreZero(k, k);
  }

  lemma PrintingIsInjective(a: nat, b: nat)
    ensures FormatWei(a) == FormatWei(b) <==> a == b
  {
    FormatRoundTrips(a);
    FormatRoundTrips(b);
  }

  /** The printer's empty-fraction branch for short texts is never taken. */
  lemma ShortFractionIsNeverEmpty(wei: nat)
    requires Digits(wei) != "0" && |Digits(wei)| <= DECIMALS
    ensures Trim(Zeros(DECIMALS - |Digits(wei)|) + Digits(wei)) != ""
  {
    PaddedIs(wei);
    NonzeroTrims(Padded(wei));
  }

  lemma NonzeroTrims(s: string)
    requires Val(s) > 0
    ensures Trim(s) != ""
  {
    TrimScalesTo(s, |s|);
  }
}
