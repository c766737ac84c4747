/** Exact decimal amounts: internal/chain/amount.go prints them, internal/decode/amount.go
    reads them, and neither ever leaves integer arithmetic. */
module Amount {
  import opened Wrappers
  import opened Int64

  const SATOSHIS_PER_QOGE := 100_000_000

  datatype AmountError = Empty | Malformed | Negative | TooPrecise | Overflow

  function Pow10(n: nat): (r: nat)
    ensures r >= 1
  {
    if n == 0 then 1 else 10 * Pow10(n - 1)
  }

  predicate IsDigit(c: char) {
    '0' <= c <= '9'
  }

  function DigitValue(c: char): nat
    requires IsDigit(c)
  {
    (c as int) - ('0' as int)
  }

  function DigitChar(d: nat): (c: char)
    requires d < 10
    ensures IsDigit(c) && DigitValue(c) == d
  {
    (d + ('0' as int)) as char
  }

  predicate AllDigits(s: string) {
    forall i :: 0 <= i < |s| ==> IsDigit(s[i])
  }

  /** The number a run of digits denotes. */
  function Number(s: string): nat
    requires AllDigits(s)
  {
    if s == "" then 0 else 10 * Number(s[..|s| - 1]) + DigitValue(s[|s| - 1])
  }

  // --- printing ---

  /** %d of an unsigned number. */
  function Digits(n: nat): (s: string)
    ensures AllDigits(s) && |s| > 0 && Number(s) == n
    ensures n > 0 ==> s[0] != '0'
    ensures n == 0 ==> s == "0"
  {
    if n < 10 then [DigitChar(n)]
    else
      var s := Digits(n / 10) + [DigitChar(n % 10)];
      assert s[..|s| - 1] == Digits(n / 10);
      s
  }

  /** %0kd of a number below 10^k. */
  function Padded(n: nat, k: nat): (s: string)
    ensures AllDigits(s) && |s| == k
    ensures n < Pow10(k) ==> Number(s) == n
  {
    if k == 0 then ""
    else
      var s := Padded(n / 10, k - 1) + [DigitChar(n % 10)];
      assert s[..|s| - 1] == Padded(n / 10, k - 1);
      s
  }

  /** The absolute value in uint64, computed without ever negating MinInt64. */
  function Magnitude(a: int64): (mag: nat)
    ensures mag == if a < 0 then -(a as int) else a
    ensures mag < TWO_64
  {
    if a < 0 then
      var shifted: int := (a as int) + 1;
      -shifted + 1
    else a
  }

  /** "%d.%08d" of the whole and the fractional part. */
  function Plain(mag: nat): string {
    Digits(mag / SATOSHIS_PER_QOGE) + "." + Padded(mag % SATOSHIS_PER_QOGE, 8)
  }

  function Show(a: int64): string {
    (if a < 0 then "-" else "") + Plain(Magnitude(a))
  }

  // --- reading ---

  /** The position of the first dot, or the length. */
  function DotAt(s: string): (i: nat)
    ensures i <= |s| && (i < |s| ==> s[i] == '.') && forall j :: 0 <= j < i ==> s[j] != '.'
  {
    if s == "" || s[0] == '.' then 0 else 1 + DotAt(s[1..])
  }

  function IntPart(s: string): string {
    s[..DotAt(s)]
  }

  function FracPart(s: string): string {
    if DotAt(s) < |s| then s[DotAt(s) + 1..] else ""
  }

  /** Digits with at most one dot among them, and at least one digit. */
  predicate IsDecimal(s: string) {
    AllDigits(IntPart(s)) && AllDigits(FracPart(s)) && |IntPart(s)| + |FracPart(s)| > 0
  }

  /** A minus sign is read and then refused; a plus sign is never read. */
  function Unsigned(s: string): string {
    if s != "" && s[0] == '-' then s[1..] else s
  }

  function Satoshis(s: string): nat
    requires IsDecimal(s) && |FracPart(s)| <= 8
  {
    Number(IntPart(s)) * Pow10(8) + Number(FracPart(s)) * Pow10(8 - |FracPart(s)|)
  }

  function Decoded(s: string): Result<int64, AmountError> {
    if s == "" then Err(Empty)
    else if !IsDecimal(Unsigned(s)) then Err(Malformed)
    else if s[0] == '-' then Err(Negative)
    else if |FracPart(s)| > 8 then Err(TooPrecise)
    else if Satoshis(s) > MAX_INT64 then Err(Overflow)
    else Ok(Satoshis(s))
  }

  lemma AllDigitsParts(s: string, t: string)
    ensures AllDigits(s + t) <==> AllDigits(s) && AllDigits(t)
  {
    var u := s + t;
    assert forall i :: 0 <= i < |s| ==> u[i] == s[i];
    assert forall i :: 0 <= i < |t| ==> u[|s| + i] == t[i];
  }

  lemma TenTimes(a: nat, p: nat)
    ensures a * (10 * p) == 10 * (a * p)
  {
  }

  lemma TimesAtLeast(a: nat, p: nat)
    requires p >= 1
    ensures a * p >= a
  {
    assert a * p == a + a * (p - 1);
  }

  lemma NumberSnoc(s: string, c: char)
    requires AllDigits(s) && IsDigit(c)
    ensures AllDigits(s + [c]) && Number(s + [c]) == 10 * Number(s) + DigitValue(c)
  {
    assert (s + [c])[..|s|] == s;
  }

  lemma {:induction false} NumberConcat(s: string, t: string)
    requires AllDigits(s) && AllDigits(t)
    ensures AllDigits(s + t) && Number(s + t) == Number(s) * Pow10(|t|) + Number(t)
  {
    hide Number, IsDigit;
    AllDigitsParts(s, t);
    if t == "" {
      assert s + t == s;
      NumberOfNothing();
    } else {
      var init, c := t[..|t| - 1], t[|t| - 1];
      assert t == init + [c] && s + t == (s + init) + [c];
      NumberConcat(s, init);
      NumberSnoc(s + init, c);
      NumberSnoc(init, c);
      TenTimes(Number(s), Pow10(|init|));
    }
  }

  lemma NumberOfNothing()
    ensures Number("") == 0
  {
  }

  lemma {:induction false} ZerosAppend(s: string, k: nat)
    requires AllDigits(s)
    ensures AllDigits(s + seq(k, i => '0')) && Number(s + seq(k, i => '0')) == Number(s) * Pow10(k)
  {
    var zeros := seq(k, i => '0');
    ZerosNumber(k);
    NumberConcat(s, zeros);
  }

  lemma {:induction false} ZerosNumber(k: nat)
    ensures AllDigits(seq(k, i => '0')) && Number(seq(k, i => '0')) == 0
  {
    var zeros := seq(k, i => '0');
    if k > 0 {
      ZerosNumber(k - 1);
      assert zeros[..k - 1] == seq(k - 1, i => '0');
    }
  }

  /** strconv.ParseInt on a non-empty run of digits. */
  method ParseInt(s: string) returns (r: Option<int64>)
    requires AllDigits(s)
    ensures r == if Number(s) <= MAX_INT64 then Some(Number(s)) else None
  {
    var n: nat := 0;
    var i := 0;
    while i < |s|
      invariant 0 <= i <= |s|
      invariant n == Number(s[..i]) && n <= MAX_INT64
    {
      assert s[..i + 1][..i] == s[..i];
      n := 10 * n + DigitValue(s[i]);
      i := i + 1;
      if n > MAX_INT64 {
        PrefixSmaller(s, i);
        return None;
      }
    }
    assert s[..|s|] == s;
    return Some(n);
  }

  lemma PrefixSmaller(s: string, i: nat)
    requires i <= |s| && AllDigits(s)
    ensures Number(s[..i]) <= Number(s)
  {
    assert s[..i] + s[i..] == s;
    NumberConcat(s[..i], s[i..]);
    TimesAtLeast(Number(s[..i]), Pow10(|s[i..]|));
  }

  /** What the scanning loop knows after i characters of the unsigned text. */
  ghost predicate Scanned(t: string, i: nat, intPart: string, fracPart: string, seenDot: bool)
    requires i <= |t|
  {
    && AllDigits(intPart) && AllDigits(fracPart)
    && if seenDot then DotAt(t) < i && intPart == IntPart(t) && fracPart == t[DotAt(t) + 1..i]
       else i <= DotAt(t) && intPart == t[..i] && fracPart == ""
  }

  lemma ScanDigit(t: string, i: nat, intPart: string, fracPart: string, seenDot: bool)
    requires i < |t| && Scanned(t, i, intPart, fracPart, seenDot) && IsDigit(t[i])
    ensures Scanned(t, i + 1, if seenDot then intPart else intPart + [t[i]], if seenDot then fracPart + [t[i]] else fracPart, seenDot)
  {
    AllDigitsParts(intPart, [t[i]]);
    AllDigitsParts(fracPart, [t[i]]);
  }

  lemma ScanDot(t: string, i: nat, intPart: string, fracPart: string)
    requires i < |t| && Scanned(t, i, intPart, fracPart, false) && t[i] == '.'
    ensures Scanned(t, i + 1, intPart, fracPart, true)
  {
  }

  lemma ScanStops(t: string, i: nat, intPart: string, fracPart: string, seenDot: bool)
    requires i < |t| && Scanned(t, i, intPart, fracPart, seenDot) && !IsDigit(t[i]) && (t[i] == '.' ==> seenDot)
    ensures !IsDecimal(t)
  {
    if seenDot {
      assert FracPart(t)[i - DotAt(t) - 1] == t[i];
    } else {
      assert i < DotAt(t) && IntPart(t)[i] == t[i];
    }
  }

  /** The left-to-right pass over the text after the sign. */
  method Scan(t: string) returns (parts: Option<(string, string)>)
    ensures parts.None? ==> !IsDecimal(t)
    ensures parts.Some? ==> parts.value == (IntPart(t), FracPart(t)) && AllDigits(parts.value.0) && AllDigits(parts.value.1)
  {
    hide DotAt;
    var intPart, fracPart, seenDot := "", "", false;
    var i := 0;
    while i < |t|
      invariant 0 <= i <= |t|
      invariant Scanned(t, i, intPart, fracPart, seenDot)
    {
      var c := t[i];
      if IsDigit(c) {
        ScanDigit(t, i, intPart, fracPart, seenDot);
        if seenDot {
          fracPart := fracPart + [c];
        } else {
          intPart := intPart + [c];
        }
      } else if c == '.' && !seenDot {
        ScanDot(t, i, intPart, fracPart);
        seenDot := true;
      } else {
        ScanStops(t, i, intPart, fracPart, seenDot);
        return None;
      }
      i := i + 1;
    }
    assert t[..|t|] == t;
    return Some((intPart, fracPart));
  }

  lemma PlusIsMalformed(s: string)
    requires s != "" && s[0] == '+'
    ensures !IsDecimal(Unsigned(s))
  {
    assert DotAt(s) > 0 && IntPart(s)[0] == s[0];
  }

  lemma NothingToScan()
    ensures !IsDecimal("")
  {
  }

  lemma DecimalHasNoSign(s: string)
    requires IsDecimal(s)
    ensures s != "" && s[0] != '-' && Unsigned(s) == s
  {
    if s != "" && DotAt(s) > 0 {
      assert IntPart(s)[0] == s[0];
    }
  }

  /** DecodeAmount: sign, one left-to-right pass, then padding to eight fractional digits. */
  method DecodeAmount(s: string) returns (r: Result<int64, AmountError>)
    ensures r == Decoded(s)
  {
    hide DotAt, IsDecimal, IntPart, FracPart, Satoshis;
    if s == "" {
      return Err(Empty);
    }
    var start, negative := 0, false;
    if s[0] == '-' {
      negative := true;
      start := 1;
    } else if s[0] == '+' {
      PlusIsMalformed(s);
      return Err(Malformed);
    }
    NothingToScan();
    assert s[0..] == s;
    if start >= |s| {
      assert Unsigned(s) == "";
      return Err(Malformed);
    }
    var parts := Scan(s[start..]);
    if parts.None? {
      return Err(Malformed);
    }
    var intPart, fracPart := parts.value.0, parts.value.1;
    DecimalIff(s[start..]);
    if |intPart| == 0 && |fracPart| == 0 {
      return Err(Malformed);
    }
    if negative {
      return Err(Negative);
    }
    if |fracPart| > 8 {
      return Err(TooPrecise);
    }
    r := ParsePadded(intPart, fracPart);
    SatoshisIs(s);
  }

  lemma DecimalIff(t: string)
    requires AllDigits(IntPart(t)) && AllDigits(FracPart(t))
    ensures IsDecimal(t) <==> |IntPart(t)| + |FracPart(t)| > 0
  {
  }

  lemma SatoshisIs(s: string)
    requires IsDecimal(s) && |FracPart(s)| <= 8 && AllDigits(IntPart(s)) && AllDigits(FracPart(s))
    ensures Satoshis(s) == Number(IntPart(s)) * Pow10(8) + Number(FracPart(s)) * Pow10(8 - |FracPart(s)|)
  {
  }

  lemma PaddedNumber(whole: string, fraction: string)
    requires AllDigits(whole) && AllDigits(fraction) && |fraction| <= 8
    ensures var combined := whole + (fraction + seq(8 - |fraction|, i => '0'));
            && AllDigits(combined)
            && Number(combined) == Number(whole) * Pow10(8) + Number(fraction) * Pow10(8 - |fraction|)
  {
    hide Number, IsDigit;
    ZerosAppend(fraction, 8 - |fraction|);
    NumberConcat(whole, fraction + seq(8 - |fraction|, i => '0'));
  }

  lemma MissingWhole(whole: string)
    requires AllDigits(whole)
    ensures var digits := if |whole| == 0 then "0" else whole; AllDigits(digits) && Number(digits) == Number(whole)
  {
    if |whole| == 0 {
      assert "0"[..0] == "";
    }
  }

  /** An empty integer part counts as 0; the fraction is padded on the right. */
  method ParsePadded(whole: string, fraction: string) returns (r: Result<int64, AmountError>)
    requires AllDigits(whole) && AllDigits(fraction) && |fraction| <= 8
    ensures var total := Number(whole) * Pow10(8) + Number(fraction) * Pow10(8 - |fraction|);
            r == if total > MAX_INT64 then Err(Overflow) else Ok(total)
  {
    hide Number, IsDigit, Pow10;
    MissingWhole(whole);
    var intPart := if |whole| == 0 then "0" else whole;
    var fracPart := fraction;
    while |fracPart| < 8
      invariant |fraction| <= |fracPart| <= 8
      invariant fracPart == fraction + seq(|fracPart| - |fraction|, i => '0')
    {
      fracPart := fracPart + ['0'];
    }
    PaddedNumber(intPart, fraction);
    var satoshis := ParseInt(intPart + fracPart);
    return if satoshis.None? then Err(Overflow) else Ok(satoshis.value);
  }

  // --- what reading and printing mean ---

  lemma DotOfConcat(s: string, t: string)
    requires AllDigits(s)
    ensures DotAt(s + "." + t) == |s|
  {
    var u := s + "." + t;
    assert u[|s|] == '.';
    assert forall j :: 0 <= j < |s| ==> u[j] == s[j];
  }

  lemma PlainParts(n: nat)
    ensures IsDecimal(Plain(n)) && |FracPart(Plain(n))| == 8 && Satoshis(Plain(n)) == n
    ensures |Plain(n)| >= 10 && Plain(n)[|Plain(n)| - 9] == '.' && (Plain(n)[0] == '0' ==> |Plain(n)| == 10)
  {
    var whole, frac := Digits(n / SATOSHIS_PER_QOGE), Padded(n % SATOSHIS_PER_QOGE, 8);
    DotOfConcat(whole, frac);
    assert IntPart(Plain(n)) == whole && FracPart(Plain(n)) == frac;
    assert Pow10(8) == SATOSHIS_PER_QOGE;
  }

  /** Every non-negative amount survives printing and reading exactly; it is printed with
      eight decimals and no needless zero in front. */
  lemma AmountRoundTrip(a: int64)
    requires a >= 0
    ensures Decoded(Show(a)) == Ok(a)
    ensures |Show(a)| >= 10 && Show(a)[|Show(a)| - 9] == '.' && (Show(a)[0] == '0' ==> |Show(a)| == 10)
  {
    hide Plain, IsDecimal, Satoshis, FracPart;
    PlainParts(a);
    assert Show(a) == Plain(a);
    DecimalHasNoSign(Plain(a));
  }

  /** Every negative amount, MinInt64 included, prints as a minus sign and its absolute
      value, which reading refuses as negative. */
  lemma NegativeRoundTrip(a: int64)
    requires a < 0
    ensures Show(a) == "-" + Plain(Magnitude(a)) && Decoded(Show(a)) == Err(Negative)
  {
    hide Plain, IsDecimal, Satoshis, FracPart;
    PlainParts(Magnitude(a));
    assert Show(a)[1..] == Plain(Magnitude(a));
  }

  /** Different amounts never print alike. */
  lemma ShowInjective(a: int64, b: int64)
    requires Show(a) == Show(b)
    ensures a == b
  {
    hide Show, Decoded, Plain, Satoshis;
    PlainParts(Magnitude(a));
    PlainParts(Magnitude(b));
    if a >= 0 {
      AmountRoundTrip(a);
    } else {
      NegativeRoundTrip(a);
    }
    if b >= 0 {
      AmountRoundTrip(b);
    } else {
      NegativeRoundTrip(b);
      assert Show(b)[1..] == Plain(Magnitude(b));
    }
    if a < 0 {
      assert Show(a)[1..] == Plain(Magnitude(a));
    }
  }

  lemma {:induction false} Pow10Add(a: nat, b: nat)
    ensures Pow10(a + b) == Pow10(a) * Pow10(b)
  {
    if a > 0 {
      Pow10Add(a - 1, b);
      assert Pow10(a) * Pow10(b) == 10 * (Pow10(a - 1) * Pow10(b));
    }
  }

  /** Accepted text denotes exactly result / 10^8: its digits, read as one number, stand
      to the result as 10^(fractional digits) stands to 10^8. */
  lemma AcceptedIsExact(s: string)
    requires Decoded(s).Ok?
    ensures IsDecimal(s)
    ensures Decoded(s).value * Pow10(|FracPart(s)|) == Number(IntPart(s) + FracPart(s)) * Pow10(8)
  {
    hide Number, IsDigit, DotAt, IntPart, FracPart;
    DecimalHasNoSign(s);
    var k := |FracPart(s)|;
    NumberConcat(IntPart(s), FracPart(s));
    Pow10Add(8 - k, k);
    Distribute(Number(IntPart(s)), Number(FracPart(s)), Pow10(8 - k), Pow10(k), Pow10(8));
  }

  lemma Distribute(i: nat, f: nat, p: nat, q: nat, pq: nat)
    requires pq == p * q
    ensures (i * pq + f * p) * q == (i * q + f) * pq
  {
  }

  /** Decimal text without a sign is refused only for more than eight fractional digits
      or for a value above int64. */
  lemma RejectedOnlyFor(s: string)
    requires IsDecimal(s)
    ensures Decoded(s).Err? <==> |FracPart(s)| > 8 || Satoshis(s) > MAX_INT64
    ensures Decoded(s).Err? ==> Decoded(s).error == TooPrecise || Decoded(s).error == Overflow
  {
    DecimalHasNoSign(s);
  }

  /** Looser than its own description: the dot may come first or last. */
  lemma LooserThanDocumented()
    ensures Decoded("1.") == Ok(100_000_000) && Decoded(".5") == Ok(50_000_000)
  {
    assert DotAt("1.") == 1 && DotAt(".5") == 0;
    assert IntPart("1.") == "1" && FracPart("1.") == "" && IntPart(".5") == "" && FracPart(".5") == "5";
    assert Number("1") == 1 && Number("5") == 5 && Number("") == 0 by {
      assert "1"[..0] == "" && "5"[..0] == "";
    }
    assert Pow10(8) == 100_000_000 && Pow10(7) == 10_000_000;
  }
}
