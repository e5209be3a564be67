/**
 Decimal text. `AmountText(v, p)` is the canonical way to write v / 10^p: a numeral without a
 superfluous leading zero, then, only if needed, a point and a fraction that does not end in zero.
 `ReadText` reads such text back.
 */
module Decimal {
  import opened Options

  function Pow10(n: nat): (p: nat)
    ensures p > 0
  {
    if n == 0 then 1 else 10 * Pow10(n - 1)
  }

  predicate IsDigit(c: char) {
    '0' <= c <= '9'
  }

  predicate AllDigits(s: string) {
    forall k :: 0 <= k < |s| ==> IsDigit(s[k])
  }

  function Digit(d: nat): (c: char)
    requires d < 10
    ensures IsDigit(c)
  {
    '0' + d as char
  }

  function DigitValue(c: char): (d: nat)
    requires IsDigit(c)
    ensures d < 10 && Digit(d) == c
  {
    (c - '0') as int
  }

  /** The numeral of `n`. */
  function Digits(n: nat): (s: string)
    ensures |s| > 0 && AllDigits(s)
  {
    if n < 10 then [Digit(n)] else Digits(n / 10) + [Digit(n % 10)]
  }

  /** The `n` last digits of `v`, with leading zeros. */
  function Fixed(v: nat, n: nat): (s: string)
    ensures |s| == n && AllDigits(s)
  {
    if n == 0 then [] else Fixed(v / 10, n - 1) + [Digit(v % 10)]
  }

  function Number(s: string): nat
    requires AllDigits(s)
  {
    if s == [] then 0 else 10 * Number(s[..|s| - 1]) + DigitValue(s[|s| - 1])
  }

  function TrimZeros(f: string): (s: string)
    ensures s <= f
    ensures s == [] || s[|s| - 1] != '0'
  {
    if f != [] && f[|f| - 1] == '0' then TrimZeros(f[..|f| - 1]) else f
  }

  function Join(whole: string, fraction: string): string {
    if fraction == [] then whole else whole + ['.'] + fraction
  }

  /** Whole part and remainder of v / 10^p. */
  function Quotient(v: nat, p: nat): nat {
    hide Pow10;
    v / Pow10(p)
  }

  function Remainder(v: nat, p: nat): (r: nat)
    ensures r < Pow10(p)
  {
    v % Pow10(p)
  }

  /** v / 10^p in decimal. */
  function AmountText(v: nat, p: nat): string {
    Join(Digits(Quotient(v, p)), TrimZeros(Fixed(Remainder(v, p), p)))
  }

  /** Index of the first point, or the length. */
  function PointAt(s: string): (i: nat)
    ensures i <= |s| && (i < |s| ==> s[i] == '.')
    ensures forall k :: 0 <= k < i ==> s[k] != '.'
  {
    if s == [] || s[0] == '.' then 0 else 1 + PointAt(s[1..])
  }

  function Whole(s: string): string {
    s[..PointAt(s)]
  }

  function Fraction(s: string): string {
    if PointAt(s) == |s| then [] else s[PointAt(s) + 1..]
  }

  /** The integer v with s = v / 10^p, if `s` is decimal text with at most `p` fraction digits. */
  function ReadText(s: string, p: nat): Option<nat> {
    if Whole(s) == [] || !AllDigits(Whole(s)) || !AllDigits(Fraction(s)) || |Fraction(s)| > p then None
    else Some(Number(Whole(s)) * Pow10(p) + Number(Fraction(s)) * Pow10(p - |Fraction(s)|))
  }

  /** No superfluous leading zero, no bare point, no trailing fractional zero. */
  predicate Canonical(s: string) {
    && (|Whole(s)| > 1 ==> s[0] != '0')
    && (PointAt(s) < |s| ==> Fraction(s) != [] && s[|s| - 1] != '0')
  }

  /** `s` is the numeral of `n`, without a superfluous zero. */
  predicate Numeral(s: string, n: nat) {
    s != [] && AllDigits(s) && (|s| > 1 ==> s[0] != '0') && Number(s) == n
  }

  // ----- numerals

  lemma {:induction false} DigitsRead(n: nat)
    ensures Number(Digits(n)) == n
    ensures Digits(n)[0] == '0' ==> n == 0
    ensures n > 0 ==> Digits(n)[0] != '0'
    ensures |Digits(n)| > 1 ==> n > 0
  {
    var s := Digits(n);
    if n >= 10 {
      DigitsRead(n / 10);
      assert s[..|s| - 1] == Digits(n / 10);
    } else {
      assert s[..0] == [];
    }
  }

  lemma {:induction false} DigitsOfNumber(s: string)
    requires s != [] && AllDigits(s) && (|s| > 1 ==> s[0] != '0')
    ensures Digits(Number(s)) == s
    ensures s[0] != '0' ==> Number(s) > 0
  {
    var init := s[..|s| - 1];
    assert s == init + [s[|s| - 1]];
    if |s| > 1 {
      DigitsOfNumber(init);
    } else {
      assert init == [];
    }
  }

  lemma {:induction false} FixedRead(v: nat, n: nat)
    requires v < Pow10(n)
    ensures Number(Fixed(v, n)) == v
  {
    if n > 0 {
      FixedRead(v / 10, n - 1);
      assert Fixed(v, n)[..n - 1] == Fixed(v / 10, n - 1);
    }
  }

  lemma {:induction false} FixedOfNumber(s: string)
    requires AllDigits(s)
    ensures Number(s) < Pow10(|s|) && Fixed(Number(s), |s|) == s
  {
    if s != [] {
      var init := s[..|s| - 1];
      FixedOfNumber(init);
      assert s == init + [s[|s| - 1]];
    }
  }

  /** At most `n` digits for numbers below 10^n. */
  lemma {:induction false} DigitsLength(v: nat, n: nat)
    requires n > 0
    ensures v < Pow10(n) <==> |Digits(v)| <= n
    decreases n
  {
    if n > 1 && v >= 10 {
      DigitsLength(v / 10, n - 1);
    }
  }

  function Zeros(n: nat): (s: string)
    ensures |s| == n && AllDigits(s)
    ensures forall k :: 0 <= k < n ==> s[k] == '0'
  {
    seq(n, _ => '0')
  }

  /** Appending a zero multiplies by ten. */
  lemma NumberShift(s: string)
    requires AllDigits(s)
    ensures AllDigits(s + ['0']) && Number(s + ['0']) == 10 * Number(s)
  {
    var w := s + ['0'];
    assert w[..|w| - 1] == s && w[|w| - 1] == '0';
  }

  lemma TenTimes(x: nat, p: nat)
    ensures 10 * (x * p) == x * (10 * p)
  {
  }

  lemma ShiftedProduct(x: nat, y: nat, z: nat, p: nat, q: nat)
    requires y == x * p && z == 10 * y && q == 10 * p
    ensures z == x * q
  {
    TenTimes(x, p);
  }

  lemma Pow10Step(n: nat)
    requires n > 0
    ensures Pow10(n) == 10 * Pow10(n - 1)
  {
  }

  /** Appending zeros multiplies. */
  lemma {:induction false} NumberZeros(s: string, n: nat)
    requires AllDigits(s)
    ensures AllDigits(s + Zeros(n)) && Number(s + Zeros(n)) == Number(s) * Pow10(n)
  {
    if n == 0 {
      assert s + Zeros(0) == s;
    } else {
      hide Number, Pow10;
      NumberZeros(s, n - 1);
      NumberShift(s + Zeros(n - 1));
      assert s + Zeros(n) == s + Zeros(n - 1) + ['0'];
      Pow10Step(n);
      ShiftedProduct(Number(s), Number(s + Zeros(n - 1)), Number(s + Zeros(n)), Pow10(n - 1), Pow10(n));
    }
  }

  /** What trimming removes is zeros. */
  lemma {:induction false} TrimmedAreZeros(f: string)
    ensures f == TrimZeros(f) + Zeros(|f| - |TrimZeros(f)|)
  {
    if f != [] && f[|f| - 1] == '0' {
      var g := f[..|f| - 1];
      TrimmedAreZeros(g);
      var z := |g| - |TrimZeros(g)|;
      assert Zeros(z + 1) == Zeros(z) + ['0'];
      assert f == g + ['0'];
    }
  }

  lemma {:induction false} TrimPadded(f: string, n: nat)
    requires f == [] || f[|f| - 1] != '0'
    ensures TrimZeros(f + Zeros(n)) == f
  {
    if n == 0 {
      assert f + Zeros(0) == f;
    } else {
      TrimPadded(f, n - 1);
      var w := f + Zeros(n);
      assert w[..|w| - 1] == f + Zeros(n - 1);
    }
  }

  // ----- the laws of AmountText

  lemma {:induction false} PointOf(s: string, whole: string, fraction: string)
    requires s == whole + fraction && '.' !in whole && (fraction != [] ==> fraction[0] == '.')
    ensures PointAt(s) == |whole|
  {
    if whole != [] {
      assert s[0] == whole[0] && whole[0] in whole;
      assert s[1..] == whole[1..] + fraction;
      PointOf(s[1..], whole[1..], fraction);
    }
  }

  lemma JoinParts(whole: string, fraction: string)
    requires AllDigits(whole) && AllDigits(fraction)
    ensures Whole(Join(whole, fraction)) == whole && Fraction(Join(whole, fraction)) == fraction
    ensures PointAt(Join(whole, fraction)) == |whole|
  {
    var s := Join(whole, fraction);
    if fraction == [] {
      PointOf(s, whole, []);
    } else {
      assert s == whole + (['.'] + fraction);
      PointOf(s, whole, ['.'] + fraction);
    }
  }

  /** The text is exact and canonical: reading it back with the same decimals gives the value. */
  lemma AmountTextExact(v: nat, p: nat)
    ensures Canonical(AmountText(v, p)) && ReadText(AmountText(v, p), p) == Some(v)
  {
    hide Pow10, Digits, Fixed, TrimZeros, Join, Whole, Fraction, Number, PointAt;
    var w, r := Quotient(v, p), Remainder(v, p);
    var f := TrimZeros(Fixed(r, p));
    var n := p - |f|;
    FixedRead(r, p);
    TrimmedAreZeros(Fixed(r, p));
    NumberZeros(f, n);
    DigitsRead(w);
    JoinParts(Digits(w), f);
    CanonicalJoin(Digits(w), f);
    assert v == w * Pow10(p) + r;
  }

  lemma CanonicalJoin(whole: string, f: string)
    requires whole != [] && AllDigits(whole) && (|whole| > 1 ==> whole[0] != '0')
    requires AllDigits(f) && (f == [] || f[|f| - 1] != '0')
    ensures Canonical(Join(whole, f))
  {
    hide Whole, Fraction, PointAt;
    JoinParts(whole, f);
  }

  /** ... and it is the only canonical text with that value. */
  lemma AmountTextUnique(s: string, v: nat, p: nat)
    requires Canonical(s) && ReadText(s, p) == Some(v)
    ensures s == AmountText(v, p)
  {
    var whole, f := Whole(s), Fraction(s);
    var n := p - |f|;
    assert s == Join(whole, f);
    assert f == [] || f[|f| - 1] == s[|s| - 1];
    hide Pow10, Digits, Fixed, TrimZeros, Join, Whole, Fraction, Number, PointAt;
    DigitsOfNumber(whole);
    NumberZeros(f, n);
    FixedOfNumber(f + Zeros(n));
    var w, r := Number(whole), Number(f + Zeros(n));
    QuotientRemainder(v, Pow10(p), w, r);
    assert Quotient(v, p) == w && Remainder(v, p) == r;
    TrimPadded(f, n);
  }

  lemma MultipleBounds(x: int, d: nat)
    ensures x >= 1 ==> x * d >= d
    ensures x <= -1 ==> x * d + d <= 0
  {
  }

  lemma QuotientRemainder(v: nat, d: nat, q: nat, r: nat)
    requires d > 0 && v == q * d + r && r < d
    ensures v / d == q && v % d == r
  {
    var x := v / d - q;
    assert x * d == r - v % d by {
      assert v == (v / d) * d + v % d;
      assert x * d == (v / d) * d - q * d;
    }
    MultipleBounds(x, d);
  }

  // ----- inserting the point into a numeral

  lemma DigitsStep(v: nat)
    requires |Digits(v)| > 1
    ensures Digits(v) == Digits(v / 10) + [Digit(v % 10)]
  {
  }

  lemma FixedStep(v: nat, n: nat)
    requires n > 0
    ensures Fixed(v, n) == Fixed(v / 10, n - 1) + [Digit(v % 10)]
  {
  }

  lemma QuotientByOne(v: nat)
    ensures Quotient(v, 0) == v && Remainder(v, 0) == 0
  {
  }

  /** Splitting a numeral `p` digits from its end divides by 10^p. */
  lemma {:induction false} SplitDigits(v: nat, p: nat)
    requires p < |Digits(v)|
    ensures var s := Digits(v);
            s[..|s| - p] == Digits(Quotient(v, p)) && s[|s| - p..] == Fixed(Remainder(v, p), p)
    decreases p
  {
    hide Digits, Fixed, Quotient, Remainder, Pow10;
    var s := Digits(v);
    if p == 0 {
      QuotientByOne(v);
      assert s[..|s|] == s;
    } else {
      DigitsStep(v);
      var t := Digits(v / 10);
      assert s == t + [Digit(v % 10)];
      var k := |t| - (p - 1);
      SplitDigits(v / 10, p - 1);
      QuotientStep(v, p);
      FixedStep(Remainder(v, p), p);
      assert s[..k] == t[..k];
      assert s[k..] == t[k..] + [Digit(v % 10)];
    }
  }

  lemma QuotientStep(v: nat, p: nat)
    requires p > 0
    ensures Quotient(v, p) == Quotient(v / 10, p - 1)
    ensures Remainder(v, p) / 10 == Remainder(v / 10, p - 1) && Remainder(v, p) % 10 == v % 10
  {
    var q := Pow10(p - 1);
    var a, r := (v / 10) / q, (v / 10) % q;
    assert v == 10 * (a * q + r) + v % 10;
    assert v == a * (10 * q) + (10 * r + v % 10);
    QuotientRemainder(v, 10 * q, a, 10 * r + v % 10);
  }

  /** Padding a numeral on the left. */
  lemma {:induction false} PadDigits(v: nat, p: nat)
    requires |Digits(v)| <= p
    ensures Fixed(v, p) == Zeros(p - |Digits(v)|) + Digits(v) && v < Pow10(p)
    decreases v
  {
    DigitsLength(v, p);
    if v >= 10 {
      PadDigits(v / 10, p - 1);
    } else {
      FixedZero(p - 1);
      assert v / 10 == 0;
    }
  }

  lemma {:induction false} FixedZero(n: nat)
    ensures Fixed(0, n) == Zeros(n)
  {
    if n > 0 {
      FixedZero(n - 1);
      assert Zeros(n) == Zeros(n - 1) + ['0'];
    }
  }

  /** Whole and fractional digits of a numeral with `p` decimals, before trimming. */
  lemma NumeralParts(v: nat, p: nat)
    ensures var s := Digits(v);
            if p >= |s| then Digits(Quotient(v, p)) == "0" && Fixed(Remainder(v, p), p) == Zeros(p - |s|) + s
            else Digits(Quotient(v, p)) == s[..|s| - p] && Fixed(Remainder(v, p), p) == s[|s| - p..]
  {
    if p >= |Digits(v)| {
      assert Digits(0) == "0";
      hide Digits, Fixed, Pow10;
      PadDigits(v, p);
      QuotientRemainder(v, Pow10(p), 0, v);
    } else {
      hide Digits, Fixed, Quotient, Remainder;
      SplitDigits(v, p);
    }
  }
}
