/** Canonical nonnegative decimal strings: the counters, versions and reader
    positions that cross the JavaScript boundary. */
module Decimals {
  import opened Wrappers

  const MAX_I64: nat := 0x7FFF_FFFF_FFFF_FFFF

  predicate Digit(c: char) {
    '0' <= c <= '9'
  }

  predicate Digits(s: string) {
    forall i :: 0 <= i < |s| ==> Digit(s[i])
  }

  /** No empty string, no leading zero, only ASCII digits. */
  predicate Canonical(s: string) {
    s != "" && !(|s| > 1 && s[0] == '0') && Digits(s)
  }

  /** Byte order of two strings, as slices of bytes compare. */
  predicate LexLe(a: string, b: string) {
    if a == "" then true
    else if b == "" then false
    else if a[0] != b[0] then a[0] < b[0]
    else LexLe(a[1..], b[1..])
  }

  /** The comparison the eligibility kernel performs, without parsing. */
  predicate DecimalLe(left: string, right: string) {
    Canonical(left) && Canonical(right)
    && (|left| < |right| || (|left| == |right| && LexLe(left, right)))
  }

  function Pow10(n: nat): (p: nat)
    ensures p >= 1
  {
    if n == 0 then 1 else 10 * Pow10(n - 1)
  }

  function DigitValue(c: char): nat
    requires Digit(c)
  {
    c as int - '0' as int
  }

  /** The number a digit string denotes. */
  function Value(s: string): nat
    requires Digits(s)
  {
    if s == "" then 0 else DigitValue(s[0]) * Pow10(|s| - 1) + Value(s[1..])
  }

  /** The decimal digits of a number, as it is written into ids and compared with versions. */
  function DecimalText(n: nat): string {
    if n < 10 then [('0' as int + n) as char] else DecimalText(n / 10) + DecimalText(n % 10)
  }

  /** A stored version: a canonical decimal that fits a signed 64-bit integer. */
  function ParseVersion(s: string): (r: Option<nat>)
    ensures r.Some? ==> r.value <= MAX_I64
  {
    if Canonical(s) && Value(s) <= MAX_I64 then Some(Value(s)) else None
  }

  lemma OneIsParsed()
    ensures ParseVersion("1") == Some(1)
  {
    var one := "1";
    assert one[1..] == "" && Pow10(0) == 1 && Value(one) == 1;
    assert Canonical(one);
  }

  lemma Pow10Monotone(m: nat, n: nat)
    requires m <= n
    ensures Pow10(m) <= Pow10(n)
    decreases n
  {
    if m < n {
      Pow10Monotone(m, n - 1);
    }
  }

  lemma LeadingDigitDecides(d: nat, e: nat, p: nat, v: nat, w: nat)
    requires d < e && v < p
    ensures d * p + v < e * p + w
  {
    assert (d + 1) * p <= e * p;
  }

  lemma {:induction false} ValueBound(s: string)
    requires Digits(s)
    ensures Value(s) < Pow10(|s|)
  {
    if s != "" {
      ValueBound(s[1..]);
      LeadingDigitDecides(DigitValue(s[0]), 10, Pow10(|s| - 1), Value(s[1..]), 0);
    }
  }

  lemma CanonicalLowerBound(s: string)
    requires Canonical(s) && |s| > 1
    ensures Pow10(|s| - 1) <= Value(s)
  {
    var p := Pow10(|s| - 1);
    assert DigitValue(s[0]) * p >= 1 * p;
  }

  /** The first digit decides, and if it ties the rest do. */
  lemma HeadDecides(a: string, b: string)
    requires Digits(a) && Digits(b) && |a| == |b| > 0
    ensures a[0] < b[0] ==> Value(a) < Value(b)
    ensures b[0] < a[0] ==> Value(b) < Value(a)
    ensures a[0] == b[0] ==> (Value(a) <= Value(b) <==> Value(a[1..]) <= Value(b[1..]))
  {
    var d, e, p := DigitValue(a[0]), DigitValue(b[0]), Pow10(|a| - 1);
    ValueBound(a[1..]);
    ValueBound(b[1..]);
    assert Value(a) == d * p + Value(a[1..]) && Value(b) == e * p + Value(b[1..]);
    hide Value, Pow10;
    if d < e {
      LeadingDigitDecides(d, e, p, Value(a[1..]), Value(b[1..]));
    } else if e < d {
      LeadingDigitDecides(e, d, p, Value(b[1..]), Value(a[1..]));
    }
  }

  lemma {:induction false} LexLeIsNumeric(a: string, b: string)
    requires Digits(a) && Digits(b) && |a| == |b|
    ensures LexLe(a, b) <==> Value(a) <= Value(b)
  {
    if a != "" {
      hide Value;
      HeadDecides(a, b);
      LexLeIsNumeric(a[1..], b[1..]);
    }
  }

  /** On canonical decimals of any length the textual comparison is numeric order. */
  lemma DecimalLeIsNumericOrder(a: string, b: string)
    requires Canonical(a) && Canonical(b)
    ensures DecimalLe(a, b) <==> Value(a) <= Value(b)
  {
    if |a| == |b| {
      LexLeIsNumeric(a, b);
    } else if |a| < |b| {
      ValueBound(a);
      Pow10Monotone(|a|, |b| - 1);
      CanonicalLowerBound(b);
    } else {
      ValueBound(b);
      Pow10Monotone(|b|, |a| - 1);
      CanonicalLowerBound(a);
    }
  }

  lemma DecimalLeTransitive(a: string, b: string, c: string)
    requires DecimalLe(a, b) && DecimalLe(b, c)
    ensures DecimalLe(a, c)
  {
    DecimalLeIsNumericOrder(a, b);
    DecimalLeIsNumericOrder(b, c);
    DecimalLeIsNumericOrder(a, c);
  }

  /** A canonical decimal is the only spelling of its number. */
  lemma {:induction false} CanonicalIsUnique(a: string, b: string)
    requires Canonical(a) && Canonical(b) && Value(a) == Value(b)
    ensures a == b
  {
    DecimalLeIsNumericOrder(a, b);
    DecimalLeIsNumericOrder(b, a);
    LexLeAntisymmetric(a, b);
  }

  lemma LexLeAntisymmetric(a: string, b: string)
    requires LexLe(a, b) && LexLe(b, a)
    ensures a == b
  {
    if a != "" {
      LexLeAntisymmetric(a[1..], b[1..]);
      assert a == [a[0]] + a[1..] && b == [b[0]] + b[1..];
    }
  }

  // ----- Writing a number -----

  lemma {:induction false} ValueSnoc(s: string, c: char)
    requires Digits(s) && Digit(c)
    ensures Digits(s + [c]) && Value(s + [c]) == 10 * Value(s) + DigitValue(c)
  {
    if s == "" {
      assert s + [c] == [c] && [c][1..] == "";
    } else {
      ValueSnoc(s[1..], c);
      assert (s + [c])[1..] == s[1..] + [c];
      Tenfold(DigitValue(s[0]), |s| - 1);
    }
  }

  lemma Tenfold(d: nat, k: nat)
    ensures d * Pow10(k + 1) == 10 * (d * Pow10(k))
  {
    assert Pow10(k + 1) == 10 * Pow10(k);
  }

  /** Writing a number yields its one canonical spelling. */
  lemma {:induction false} DecimalTextIsCanonical(n: nat)
    ensures Canonical(DecimalText(n)) && Value(DecimalText(n)) == n
    ensures n > 0 ==> DecimalText(n)[0] != '0'
  {
    if n < 10 {
      var c := ('0' as int + n) as char;
      ValueSnoc("", c);
      assert "" + [c] == [c];
    } else {
      DecimalTextIsCanonical(n / 10);
      var c := ('0' as int + n % 10) as char;
      assert DecimalText(n % 10) == [c];
      ValueSnoc(DecimalText(n / 10), c);
    }
  }

  /** A stored number compares equal to a version exactly when the version parses to it. */
  lemma ParsedIffWritten(s: string, n: nat)
    requires n <= MAX_I64
    ensures s == DecimalText(n) <==> ParseVersion(s) == Some(n)
  {
    hide Value, DecimalText;
    DecimalTextIsCanonical(n);
    if ParseVersion(s) == Some(n) { CanonicalIsUnique(s, DecimalText(n)); }
  }
}
