/** Decimal numerals: rendering a page number (Python's `str(int)`) and
    parsing price text (Python's `float()` restricted to plain decimals). */
module Numbers {
  import opened Wrappers
  import opened Text

  predicate AllDigits(s: string) {
    forall i :: 0 <= i < |s| ==> IsDigit(s[i])
  }

  lemma DigitsConcat(a: string, b: string)
    requires AllDigits(a) && AllDigits(b)
    ensures AllDigits(a + b)
  {
    assert forall i :: |a| <= i < |a + b| ==> (a + b)[i] == b[i - |a|];
  }

  function DigitValue(c: char): nat
    requires IsDigit(c)
  {
    (c as int) - ('0' as int)
  }

  function DigitChar(d: nat): (c: char)
    requires d < 10
    ensures IsDigit(c) && DigitValue(c) == d
  {
    ('0' as int + d) as char
  }

  /** The number a string of decimal digits denotes, most significant first. */
  function DigitsValue(s: string): nat
    requires AllDigits(s)
  {
    if s == [] then 0 else DigitsValue(s[..|s| - 1]) * 10 + DigitValue(s[|s| - 1])
  }

  /** `str(n)` for a non-negative integer: its shortest decimal spelling. */
  function Decimal(n: nat): (r: string)
    ensures |r| >= 1 && AllDigits(r)
    ensures r[0] == '0' ==> n == 0
  {
    if n < 10 then [DigitChar(n)] else Decimal(n / 10) + [DigitChar(n % 10)]
  }

  /** Rendering a number and reading its digits back gives the number. */
  lemma {:induction false} DecimalValue(n: nat)
    ensures DigitsValue(Decimal(n)) == n
  {
    if n >= 10 {
      DecimalValue(n / 10);
      var s := Decimal(n);
      assert s[..|s| - 1] == Decimal(n / 10);
    }
  }

  /** Different numbers have different spellings. */
  lemma DecimalInjective(m: nat, n: nat)
    requires Decimal(m) == Decimal(n)
    ensures m == n
  {
    DecimalValue(m);
    DecimalValue(n);
  }

  function Pow10(n: nat): (p: nat)
    ensures p >= 1
  {
    if n == 0 then 1 else 10 * Pow10(n - 1)
  }

  /** The value of the digits after a decimal point: the number they denote
      over `10^|s|`, so "5" is 5/10 and "25" is 25/100. */
  function FractionValue(s: string): (v: real)
    requires AllDigits(s)
    ensures 0.0 <= v < 1.0
    ensures v * (Pow10(|s|) as real) == DigitsValue(s) as real
  {
    var x, p := DigitsValue(s) as real, Pow10(|s|) as real;
    assert x < p by { DigitsValueBound(s); }
    QuotientBelowOne(x, p);
    x / p
  }

  lemma QuotientBelowOne(x: real, p: real)
    requires 0.0 <= x < p
    ensures 0.0 <= x / p < 1.0
    ensures (x / p) * p == x
  {
    var q := x / p;
    assert q * p == x;
  }

  /** Index of the first '.' in `s`, or `|s|` when there is none. */
  function PointIndex(s: string): (k: nat)
    ensures k <= |s|
    ensures forall i :: 0 <= i < k ==> s[i] != '.'
    ensures k < |s| ==> s[k] == '.'
  {
    if s == [] then 0 else if s[0] == '.' then 0 else 1 + PointIndex(s[1..])
  }

  /** An unsigned decimal: digits, optionally a point and more digits, with at
      least one digit in all ("12", "12.", ".5", "12.50"). */
  function ParseUnsigned(u: string): (r: Option<real>)
    ensures r.Some? ==> exists i :: 0 <= i < |u| && IsDigit(u[i])
  {
    var k := PointIndex(u);
    var whole := u[..k];
    var frac := if k < |u| then u[k + 1..] else [];
    if AllDigits(whole) && AllDigits(frac) && |whole| + |frac| > 0 then
      assert |whole| > 0 ==> IsDigit(u[0]);
      assert |whole| == 0 ==> IsDigit(u[k + 1]);
      Some(DigitsValue(whole) as real + FractionValue(frac))
    else
      None
  }

  /** An unsigned decimal, optionally preceded by one '+' or '-' sign. */
  function ParseSigned(t: string): (r: Option<real>)
    ensures r.Some? ==> exists i :: 0 <= i < |t| && IsDigit(t[i])
  {
    if |t| > 0 && (t[0] == '+' || t[0] == '-') then
      match ParseUnsigned(t[1..])
      case None => None
      case Some(v) => Some(if t[0] == '-' then -v else v)
    else
      ParseUnsigned(t)
  }

  /** `float(s)` on plain decimal text: surrounding whitespace is ignored and
      one leading '+' or '-' sign is allowed; anything else is unparsable. */
  function ParseDecimal(s: string): (r: Option<real>)
    ensures r.Some? ==> exists i :: 0 <= i < |s| && IsDigit(s[i])
  {
    var t := Trim(s);
    var start := TrimStart(s);
    assert t == start[..|t|];
    assert start == s[|s| - |start|..];
    ParseSigned(t)
  }

  /** A numeral of `n` digits denotes less than `10^n`. */
  lemma {:induction false} DigitsValueBound(s: string)
    requires AllDigits(s)
    ensures DigitsValue(s) < Pow10(|s|)
    decreases |s|
  {
    if s != [] {
      DigitsValueBound(s[..|s| - 1]);
    }
  }

  /** A numeral with a decimal point parses to its whole part plus its
      fraction: "1234.56" is 1234 + 56/100. */
  lemma ParseWithFraction(w: string, f: string)
    requires AllDigits(w) && AllDigits(f) && |w| + |f| > 0
    ensures var r := ParseUnsigned(w + ("." + f));
      r.Some? && r.value == DigitsValue(w) as real + FractionValue(f)
  {
    SplitAtPoint(w, f);
  }

  /** Digits, a point and digits split at that point into the two numerals. */
  lemma SplitAtPoint(w: string, f: string)
    requires AllDigits(w)
    ensures var u := w + ("." + f);
      PointIndex(u) == |w| && u[..|w|] == w && u[|w| + 1..] == f
  {
    PointAfterDigits(w, "." + f);
  }

  /** Price text with a point, such as "1234.56", parses to its whole part
      plus its fraction, 1234 + 56/100. */
  lemma ParseDecimalWithFraction(w: string, f: string)
    requires AllDigits(w) && AllDigits(f) && |w| + |f| > 0
    ensures var r := ParseDecimal(w + ("." + f));
      r.Some? && r.value == DigitsValue(w) as real + FractionValue(f)
  {
    var s := w + ("." + f);
    FractionTextEnds(w, f);
    BareText(s);
    ParseWithFraction(w, f);
  }

  /** Digits around a point neither start nor end with whitespace or start with a sign. */
  lemma FractionTextEnds(w: string, f: string)
    requires AllDigits(w) && AllDigits(f)
    ensures var s := w + ("." + f);
      !IsSpace(s[0]) && !IsSpace(s[|s| - 1]) && s[0] != '+' && s[0] != '-'
  {
    var s := w + ("." + f);
    assert s[0] == (if w == [] then '.' else w[0]);
    assert s[|s| - 1] == (if f == [] then '.' else f[|f| - 1]);
  }

  /** Text that neither starts with whitespace or a sign nor ends with
      whitespace is read as an unsigned decimal. */
  lemma BareText(s: string)
    requires |s| > 0 && !IsSpace(s[0]) && !IsSpace(s[|s| - 1]) && s[0] != '+' && s[0] != '-'
    ensures ParseDecimal(s) == ParseUnsigned(s)
  {
    TrimUntrimmed(s);
  }

  /** The first point of digits followed by a point is the one after them. */
  lemma {:induction false} PointAfterDigits(w: string, rest: string)
    requires AllDigits(w) && |rest| > 0 && rest[0] == '.'
    ensures PointIndex(w + rest) == |w|
    decreases |w|
  {
    if w != [] {
      assert (w + rest)[1..] == w[1..] + rest;
      PointAfterDigits(w[1..], rest);
    }
  }

  /** Plain digits parse to the number they denote. */
  lemma UnsignedDigits(s: string)
    requires |s| > 0 && AllDigits(s)
    ensures ParseUnsigned(s) == Some(DigitsValue(s) as real)
  {
    NoPoint(s);
    var k := PointIndex(s);
    assert s[..k] == s;
    assert FractionValue([]) == 0.0;
    var r := ParseUnsigned(s);
    assert r.Some? && r.value == DigitsValue(s) as real;
  }

  /** Digit text without a sign or surrounding whitespace parses to its value. */
  lemma ParseDigits(s: string)
    requires |s| > 0 && AllDigits(s)
    ensures ParseDecimal(s) == Some(DigitsValue(s) as real)
  {
    BareText(s);
    UnsignedDigits(s);
  }

  /** A rendered page number parses back to itself. */
  lemma ParseDecimalOfDecimal(n: nat)
    ensures ParseDecimal(Decimal(n)) == Some(n as real)
  {
    ParseDigits(Decimal(n));
    DecimalValue(n);
  }

  lemma {:induction false} NoPoint(s: string)
    requires AllDigits(s)
    ensures PointIndex(s) == |s|
  {
    if s != [] {
      NoPoint(s[1..]);
    }
  }

  /** A minus sign negates the value. */
  lemma NegativeDecimal(n: nat)
    ensures ParseDecimal("-" + Decimal(n)) == Some(-(n as real))
  {
    var s := Decimal(n);
    var t := "-" + s;
    assert t[0] == '-' && t[1..] == s;
    assert t[|t| - 1] == s[|s| - 1];
    TrimUntrimmed(t);
    UnsignedDigits(s);
    DecimalValue(n);
    assert ParseSigned(t) == Some(-(n as real));
  }

  /** Whitespace before the number, such as that after a currency symbol, is ignored. */
  lemma LeadingSpace(c: char, s: string)
    requires IsSpace(c)
    ensures ParseDecimal([c] + s) == ParseDecimal(s)
  {
    assert ([c] + s)[1..] == s;
    assert TrimStart([c] + s) == TrimStart(s);
  }
}
