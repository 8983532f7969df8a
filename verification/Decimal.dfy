/** The decimal formatters of the chain client, and the reader that undoes them. */
module Decimal {
  import opened Machine

  // TOKEN_SCALE is ten to the sixth, as the width in `{frac:06}` requires.
  function Whole(n: nat): nat {
    n / 1_000_000
  }

  function Frac(n: nat): nat {
    n % 1_000_000
  }

  function Millionths(whole: nat, frac: nat): nat {
    whole * 1_000_000 + frac
  }

  function DigitChar(d: nat): char {
    ('0' as int + d % 10) as char
  }

  predicate IsDigit(c: char) {
    '0' <= c <= '9'
  }

  predicate AllDigits(s: string) {
    forall i :: 0 <= i < |s| ==> IsDigit(s[i])
  }

  function DigitValue(c: char): nat
    requires IsDigit(c)
  {
    c as int - '0' as int
  }

  lemma DigitCharValue(d: nat)
    requires d < 10
    ensures IsDigit(DigitChar(d)) && DigitValue(DigitChar(d)) == d
  {
  }

  /** The numeral of `n`. The digits are a parameter so that the verifier does not compute the
      numerals of large constants. */
  function Numeral(n: nat, digit: nat -> char): (s: string)
    ensures |s| > 0
    decreases digit, n
  {
    if n < 10 then [digit(n)] else Numeral(n / 10, digit) + [digit(n % 10)]
  }

  /** The shortest decimal numeral of `n`, as `to_string` prints it. */
  function Digits(n: nat): (s: string)
    ensures |s| > 0
  {
    Numeral(n, DigitChar)
  }

  /** The number a digit string denotes. */
  function Value(s: string): nat
    requires AllDigits(s)
  {
    if s == "" then 0 else Value(s[..|s| - 1]) * 10 + DigitValue(s[|s| - 1])
  }

  function Zeros(k: nat): string {
    seq(k, i => '0')
  }

  function Pow10(k: nat): nat {
    if k == 0 then 1 else 10 * Pow10(k - 1)
  }

  lemma {:induction false} DigitsRoundTrip(n: nat)
    ensures AllDigits(Digits(n)) && Value(Digits(n)) == n
  {
    DigitCharValue(n % 10);
    if n < 10 {
      assert Digits(n)[..0] == "";
    } else {
      DigitsRoundTrip(n / 10);
      assert Digits(n)[..|Digits(n)| - 1] == Digits(n / 10);
    }
  }

  lemma DigitsInjective(m: nat, n: nat)
    requires Digits(m) == Digits(n)
    ensures m == n
  {
    DigitsRoundTrip(m);
    DigitsRoundTrip(n);
  }

  lemma {:induction false} DigitsLength(n: nat, k: nat)
    requires 1 <= k && n < Pow10(k)
    ensures |Digits(n)| <= k
  {
    if n >= 10 {
      assert k >= 2 by { assert Pow10(1) == 10; }
      DigitsLength(n / 10, k - 1);
    }
  }

  lemma {:induction false} LeadingZeros(k: nat, s: string)
    requires AllDigits(s)
    ensures AllDigits(Zeros(k) + s) && Value(Zeros(k) + s) == Value(s)
    decreases k + |s|
  {
    var t := Zeros(k) + s;
    if s == "" {
      if k > 0 {
        assert t[..|t| - 1] == Zeros(k - 1) + "";
        LeadingZeros(k - 1, "");
      }
    } else {
      assert t[..|t| - 1] == Zeros(k) + s[..|s| - 1];
      LeadingZeros(k, s[..|s| - 1]);
    }
  }

  lemma MulAssoc(a: nat, b: nat)
    ensures (a * b) * 10 == a * (10 * b)
  {
  }

  lemma {:induction false} TrailingZeros(s: string, k: nat)
    requires AllDigits(s)
    ensures AllDigits(s + Zeros(k)) && Value(s + Zeros(k)) == Value(s) * Pow10(k)
  {
    var t := s + Zeros(k);
    if k == 0 {
      assert t == s;
    } else {
      var u := s + Zeros(k - 1);
      assert t[..|t| - 1] == u && t[|t| - 1] == '0';
      TrailingZeros(s, k - 1);
      calc {
        Value(t);
        Value(u) * 10 + DigitValue('0');
        (Value(s) * Pow10(k - 1)) * 10;
        { MulAssoc(Value(s), Pow10(k - 1)); }
        Value(s) * Pow10(k);
      }
    }
  }

  /** `{frac:06}`: pad with zeros on the left up to six places. */
  function Padded6(frac: nat): string {
    var d := Digits(frac);
    if |d| < 6 then Zeros(6 - |d|) + d else d
  }

  /** `trim_end_matches('0')`. */
  function TrimEndZeros(s: string): string {
    if s != "" && s[|s| - 1] == '0' then TrimEndZeros(s[..|s| - 1]) else s
  }

  function FormatScaled(whole: nat, frac: string): string {
    Digits(whole) + "." + frac
  }

  function FormatTokenAmount(raw: u64): string {
    var whole := Whole(raw);
    var frac := Frac(raw);
    if frac == 0 then Digits(whole) else FormatScaled(whole, Padded6(frac))
  }

  function FormatTrimmed(numerator: nat): string {
    var whole := Whole(numerator);
    var frac := Frac(numerator);
    if frac == 0 then Digits(whole) else FormatScaled(whole, TrimEndZeros(Padded6(frac)))
  }

  function FormatPricePieces(raw: u64): string {
    FormatTrimmed(SatMul(raw, 100))
  }

  // ---------------------------------------------------------------- reading back

  function IndexOfDot(s: string): (i: nat)
    ensures i <= |s|
  {
    if s == "" || s[0] == '.' then 0 else 1 + IndexOfDot(s[1..])
  }

  /** Reads a numeral with at most six places after the point, in millionths. */
  function ReadMillionths(s: string): Option<nat> {
    var i := IndexOfDot(s);
    var whole, frac := s[..i], if i < |s| then s[i + 1..] else "";
    if whole != "" && AllDigits(whole) && AllDigits(frac) && |frac| <= 6 then
      Some(Millionths(Value(whole), Value(frac + Zeros(6 - |frac|))))
    else
      None
  }

  /** Reads a price: the wire shows hundredths of a token per piece. */
  function ReadPrice(s: string): Option<nat> {
    match ReadMillionths(s)
    case Some(m) => if m % 100 == 0 then Some(m / 100) else None
    case None => None
  }

  lemma {:induction false} DotAfterDigits(a: string, b: string)
    requires AllDigits(a)
    ensures IndexOfDot(a) == |a|
    ensures IndexOfDot(a + "." + b) == |a|
  {
    if a != "" {
      assert (a + "." + b)[1..] == a[1..] + "." + b;
      DotAfterDigits(a[1..], b);
    }
  }

  lemma Padded6Value(frac: nat)
    requires frac < 1_000_000
    ensures |Padded6(frac)| == 6 && AllDigits(Padded6(frac)) && Value(Padded6(frac)) == frac
  {
    assert Pow10(6) == 1_000_000;
    DigitsLength(frac, 6);
    DigitsRoundTrip(frac);
    LeadingZeros(6 - |Digits(frac)|, Digits(frac));
  }

  lemma {:induction false} TrimmedBack(s: string)
    ensures |TrimEndZeros(s)| <= |s|
    ensures TrimEndZeros(s) + Zeros(|s| - |TrimEndZeros(s)|) == s
  {
    if s != "" && s[|s| - 1] == '0' {
      TrimmedBack(s[..|s| - 1]);
    }
  }

  lemma ReadWhole(whole: nat)
    ensures ReadMillionths(Digits(whole)) == Some(Millionths(whole, 0))
  {
    DigitsRoundTrip(whole);
    DotAfterDigits(Digits(whole), "");
    TrailingZeros("", 6);
    assert Digits(whole)[..|Digits(whole)|] == Digits(whole);
  }

  lemma ReadFraction(whole: nat, frac: nat, f: string)
    requires frac < 1_000_000 && |f| <= 6 && f + Zeros(6 - |f|) == Padded6(frac)
    ensures ReadMillionths(FormatScaled(whole, f)) == Some(Millionths(whole, frac))
  {
    DigitsRoundTrip(whole);
    DotAfterDigits(Digits(whole), f);
    Padded6Value(frac);
    var s := FormatScaled(whole, f);
    var i := IndexOfDot(s);
    assert s[..i] == Digits(whole) && s[i + 1..] == f;
    assert forall j :: 0 <= j < |f| ==> f[j] == Padded6(frac)[j];
  }

  lemma Split(n: nat)
    ensures Millionths(Whole(n), Frac(n)) == n
  {
  }

  /** Every u64 amount is read back from its wire form. */
  lemma TokenRoundTrip(raw: u64)
    ensures ReadMillionths(FormatTokenAmount(raw)) == Some(raw)
  {
    var whole, frac := Whole(raw), Frac(raw);
    Split(raw);
    if frac == 0 {
      ReadWhole(whole);
    } else {
      Padded6Value(frac);
      assert Padded6(frac) + Zeros(0) == Padded6(frac);
      ReadFraction(whole, frac, Padded6(frac));
    }
  }

  /** Dropping zeros loses nothing. */
  lemma TrimmedDenotes(n: nat)
    ensures ReadMillionths(FormatTrimmed(n)) == Some(n)
  {
    var whole, frac := Whole(n), Frac(n);
    Split(n);
    if frac == 0 {
      ReadWhole(whole);
    } else {
      Padded6Value(frac);
      TrimmedBack(Padded6(frac));
      ReadFraction(whole, frac, TrimEndZeros(Padded6(frac)));
    }
  }

  /** The largest price whose hundredfold still fits 64 bits. */
  const MAX_EXACT_PRICE: u64 := 184_467_440_737_095_516

  lemma Hundredfold(raw: u64)
    ensures raw <= MAX_EXACT_PRICE ==> SatMul(raw, 100) == raw * 100
    ensures raw > MAX_EXACT_PRICE ==> SatMul(raw, 100) == U64_MAX
  {
  }

  lemma HundredthOf(n: nat, raw: u64)
    requires n == if raw <= MAX_EXACT_PRICE then raw * 100 else U64_MAX
    ensures n % 100 == 0 && n / 100 == raw <==> raw <= MAX_EXACT_PRICE
  {
  }

  /** A price survives the trip exactly when its product with 100 does not saturate. */
  lemma PriceRoundTrip(raw: u64)
    ensures ReadPrice(FormatPricePieces(raw)) == Some(raw) <==> raw <= MAX_EXACT_PRICE
  {
    var n := SatMul(raw, 100);
    TrimmedDenotes(n);
    Hundredfold(raw);
    HundredthOf(n, raw);
  }

  lemma TokenInjective(a: u64, b: u64)
    ensures FormatTokenAmount(a) == FormatTokenAmount(b) <==> a == b
  {
    TokenRoundTrip(a);
    TokenRoundTrip(b);
  }

  /** Two prices share a wire key exactly when they are equal or both saturate. */
  lemma PriceKeyCollision(a: u64, b: u64)
    ensures FormatPricePieces(a) == FormatPricePieces(b)
       <==> a == b || (a > MAX_EXACT_PRICE && b > MAX_EXACT_PRICE)
  {
    var m, n := SatMul(a, 100), SatMul(b, 100);
    TrimmedDenotes(m);
    TrimmedDenotes(n);
    Hundredfold(a);
    Hundredfold(b);
    assert m == n <==> a == b || (a > MAX_EXACT_PRICE && b > MAX_EXACT_PRICE);
  }

  /** The size "0" of a removed level is the numeral of no live level. */
  lemma ZeroSize(raw: u64)
    ensures FormatTokenAmount(raw) == "0" <==> raw == 0
  {
  }

  /** A numeral of more than one digit does not start with 0. */
  lemma {:induction false} DigitsShortest(n: nat)
    ensures |Digits(n)| > 1 ==> Digits(n)[0] != '0'
  {
    DigitCharValue(n % 10);
    if n >= 10 {
      DigitsShortest(n / 10);
      DigitCharValue((n / 10) % 10);
    }
  }

  predicate HasPoint(s: string) {
    '.' in s
  }

  lemma DigitsHaveNoPoint(n: nat)
    ensures !HasPoint(Digits(n))
  {
    DigitsRoundTrip(n);
    hide Digits;
    assert forall i :: 0 <= i < |Digits(n)| ==> Digits(n)[i] != '.';
  }

  /** An amount of whole tokens prints without a point, any other with exactly six places. */
  lemma TokenForm(raw: u64)
    ensures var s, whole := FormatTokenAmount(raw), Digits(raw / 1_000_000);
            if raw % 1_000_000 == 0 then s == whole && !HasPoint(s)
            else |s| == |whole| + 7 && s[..|whole| + 1] == whole + "."
  {
    DigitsHaveNoPoint(raw / 1_000_000);
    if raw % 1_000_000 != 0 {
      Padded6Value(raw % 1_000_000);
    }
    hide Digits, Padded6;
  }

  lemma {:induction false} TrimmedEnd(s: string)
    ensures TrimEndZeros(s) != "" ==> TrimEndZeros(s)[|TrimEndZeros(s)| - 1] != '0'
  {
    if s != "" && s[|s| - 1] == '0' {
      TrimmedEnd(s[..|s| - 1]);
    }
  }

  lemma AllZeros(s: string)
    requires AllDigits(s) && TrimEndZeros(s) == ""
    ensures Value(s) == 0
  {
    TrimmedBack(s);
    TrailingZeros("", |s|);
    assert "" + Zeros(|s|) == s;
  }

  /** A price prints without a point, or without zeros at its end. */
  lemma PriceForm(raw: u64)
    ensures var s := FormatPricePieces(raw); HasPoint(s) ==> s[|s| - 1] != '0' && s[|s| - 1] != '.'
  {
    var n := SatMul(raw, 100);
    var f := TrimEndZeros(Padded6(Frac(n)));
    DigitsHaveNoPoint(Whole(n));
    Padded6Value(Frac(n));
    TrimmedBack(Padded6(Frac(n)));
    TrimmedEnd(Padded6(Frac(n)));
    if f == "" {
      AllZeros(Padded6(Frac(n)));
    } else {
      assert f[|f| - 1] == Padded6(Frac(n))[|f| - 1];
    }
    hide Digits, Padded6, TrimEndZeros;
  }
}
