/** src/transaction/utils.c: the 128-bit division loop and the placing of the decimal point. */
module Formatting {
  import opened Bytes
  import opened CStrings
  import opened TxTypes
  import opened Decimal
  import opened Utils

  const UINT128_MAX_LENGTH: nat := 40
  const P64_R: nat := 6
  const P64_Q: nat := 1844674407370955161

  lemma DigitsHaveNoNul(s: string)
    requires AllDigits(s)
    ensures '\0' !in s && '.' !in s
  {
  }

  /** Addition in uint64_t. */
  function Add64(x: nat, y: nat): (r: nat)
    ensures r < U64
  {
    (x + y) % U64
  }

  /** One round of the division: the 64-bit operations neither wrap nor carry, and together give
      the true quotient and remainder by 10. */
  lemma DivisionRound(high: nat, low: nat)
    requires high < U64 && low < U64
    ensures var q, r := high % 10 * P64_Q, high % 10 * P64_R;
            var part := r + low % 10;
            var sum := q + low / 10;
            && q % U64 == q && r % U64 == r && Add64(r, low % 10) == part
            && Add64(q, low / 10) == sum && Add64(sum, part / 10) == sum + part / 10
            && Add64(high / 10, 0) == high / 10
            && Value(high, low) / 10 == Value(high / 10, sum + part / 10)
            && Value(high, low) % 10 == part % 10
  {
    var hq, hr := high / 10, high % 10;
    var lq, lr := low / 10, low % 10;
    var part := hr * P64_R + lr;
    assert U64 == 10 * P64_Q + P64_R;
    assert lq <= P64_Q && (lq == P64_Q ==> lr <= 5);
    assert hr <= 9 && part <= 63;
    var n := hq * U64 + (hr * P64_Q + lq + part / 10);
    assert high * U64 + low == 10 * n + part % 10;
  }

  /** The number in two 64-bit limbs. */
  function Value(high: nat, low: nat): (v: nat)
    ensures v == 0 <==> high == 0 && low == 0
  {
    high * U64 + low
  }

  lemma ValueBound(high: nat, low: nat)
    requires high < U64 && low < U64
    ensures Value(high, low) < U64 * U64
  {
  }

  lemma U128Digits(v: nat)
    requires v < U64 * U64
    ensures |Digits(v)| <= 39
  {
    assert Pow10(13) == 10_000_000_000_000 by {
      assert Pow10(3) == 1000;
      assert Pow10(6) == 1000 * Pow10(3);
      assert Pow10(9) == 1000 * Pow10(6);
      assert Pow10(12) == 1000 * Pow10(9);
    }
    assert Pow10(39) == 10_000_000_000_000 * 10_000_000_000_000 * 10_000_000_000_000 by {
      assert Pow10(16) == 1000 * Pow10(13);
      assert Pow10(19) == 1000 * Pow10(16);
      assert Pow10(22) == 1000 * Pow10(19);
      assert Pow10(25) == 1000 * Pow10(22);
      assert Pow10(28) == 1000 * Pow10(25);
      assert Pow10(31) == 1000 * Pow10(28);
      assert Pow10(34) == 1000 * Pow10(31);
      assert Pow10(37) == 1000 * Pow10(34);
    }
    DigitsLength(v, 39);
  }

  /** What remains to be printed in front of the digits already in the buffer. */
  function Remaining(v: nat): string {
    if v == 0 then [] else Digits(v)
  }

  lemma ZeroDigits()
    ensures Digits(0) == ['0']
  {
  }

  lemma RemainingOf(v: nat)
    ensures Remaining(v) == if v == 0 then [] else Digits(v)
  {
  }

  /** The numeral of a number is that of its tenth and the last digit. */
  lemma RemainingStep(v: nat)
    requires v > 0
    ensures Remaining(v) == Remaining(v / 10) + [Digit(v % 10)]
  {
  }

  /** The 128-bit number is printed in full, or refused because the result buffer is too short. */
  method FormatU128(high0: nat, low0: nat, result: array<char>, bufferSize: nat) returns (ok: bool)
    requires high0 < U64 && low0 < U64 && bufferSize <= result.Length
    modifies result
    ensures ok == (|Digits(Value(high0, low0))| < bufferSize)
    ensures ok ==> IsCString(result[..], Digits(Value(high0, low0)))
  {
    hide Digits, Value, Add64, Remaining;
    ghost var text := Digits(Value(high0, low0));
    ValueBound(high0, low0);
    U128Digits(Value(high0, low0));
    DigitsHaveNoNul(text);
    var high: nat, low: nat := high0, low0;
    var index := UINT128_MAX_LENGTH;
    var buffer := new char[UINT128_MAX_LENGTH];
    index := index - 1;
    buffer[index] := '\0';
    if high == 0 && low == 0 {
      ZeroDigits();
      index := index - 1;
      buffer[index] := '0';
    }
    RemainingOf(Value(high, low));
    assert text == Remaining(Value(high, low)) + buffer[index..39];
    while high != 0 || low != 0
      invariant high < U64 && low < U64
      invariant 0 <= index <= 39
      invariant buffer[39] == '\0'
      invariant text == Remaining(Value(high, low)) + buffer[index..39]
      decreases Value(high, low)
    {
      ghost var v := Value(high, low);
      DivisionRound(high, low);
      RemainingStep(v);
      var highQuotient, highRemainder := high / 10, high % 10;
      var lowQuotient, lowRemainder := low / 10, low % 10;
      var highPartQ := (highRemainder * P64_Q) % U64;
      var highPartR := (highRemainder * P64_R) % U64;
      var currQ := Add64(highPartR, lowRemainder) / 10;
      var currR := Add64(highPartR, lowRemainder) % 10;
      ghost var tail := buffer[index..39];
      index := index - 1;
      buffer[index] := Digit(currR);
      assert buffer[index..39] == [Digit(v % 10)] + tail;
      assert Remaining(v) + tail == Remaining(v / 10) + ([Digit(v % 10)] + tail);
      var sumHigh := 0;
      var sumLow := highPartQ;
      sumLow := Add64(sumLow, lowQuotient);
      if sumLow < lowQuotient {
        sumHigh := sumHigh + 1;
      }
      sumLow := Add64(sumLow, currQ);
      if sumLow < currQ {
        sumHigh := sumHigh + 1;
      }
      high := Add64(highQuotient, sumHigh);
      low := sumLow;
    }
    RemainingOf(0);
    assert text == buffer[index..39];
    var requiredLength := UINT128_MAX_LENGTH - index;
    if bufferSize < requiredLength {
      return false;
    }
    forall i | 0 <= i < requiredLength {
      result[i] := buffer[index + i];
    }
    assert result[..|text|] == text;
    ok := true;
  }

  /** The numeral `s` with a point `p` digits from its end, before trimming. */
  function Pointed(s: string, p: nat): string {
    if p >= |s| then ['0', '.'] + Zeros(p - |s|) + s
    else if p == 0 then s
    else s[..|s| - p] + ['.'] + s[|s| - p..]
  }

  /** Bytes process_precision asks for, and bytes it writes; both count the final NUL. */
  function Reserved(len: nat, precision: nat): nat {
    len + (if precision > len then precision - len + 2 else 1) + 1
  }

  function Written(len: nat, precision: nat): nat {
    (if precision >= len then precision + 2 else if precision == 0 then len else len + 1) + 1
  }

  /** The size test covers what is written if and only if the precision differs from the number of
      digits; there it is one byte short. */
  lemma ReservedCovers(len: nat, precision: nat)
    ensures Written(len, precision) <= Reserved(len, precision) <==> precision != len
    ensures Written(len, len) == Reserved(len, len) + 1
  {
  }

  lemma PointInText(text: string, whole: string, fraction: string)
    requires AllDigits(whole) && AllDigits(fraction)
    ensures text == whole + ['.'] + fraction ==>
              forall i :: 0 <= i < |text| && text[i] == '.' ==> i == |whole|
    ensures text == whole + ['.'] + fraction ==> text[|whole|] == '.' && '.' in text
  {
    if text == whole + ['.'] + fraction {
      assert text[|whole|] == '.';
      forall i | 0 <= i < |text| && i != |whole|
        ensures text[i] != '.'
      {
        assert text[i] == if i < |whole| then whole[i] else fraction[i - |whole| - 1];
      }
    }
  }

  /** Removing trailing zeros, then a bare point, in place (the loop at the end of the source). */
  method TrimInPlace(output: array<char>, ptr: nat, ghost whole: string, ghost fraction: string)
    requires AllDigits(whole) && AllDigits(fraction) && whole != [] && ptr == |whole|
    requires IsCString(output[..], whole + ['.'] + fraction)
    modifies output
    ensures IsCString(output[..], Join(whole, TrimZeros(fraction)))
    ensures KeptFrom(output[..], old(output[..]), |whole| + 1 + |fraction|)
  {
    var end := StrLen(output, whole + ['.'] + fraction);
    ghost var rest := fraction;
    while end > ptr + 1 && output[end - 1] == '0'
      invariant end == ptr + 1 + |rest| && end < output.Length
      invariant rest <= fraction && TrimZeros(rest) == TrimZeros(fraction)
      invariant output[..end] == whole + ['.'] + rest && output[end] == '\0'
      invariant KeptFrom(output[..], old(output[..]), |whole| + 1 + |fraction|)
    {
      assert output[..end][end - 1] == rest[|rest| - 1];
      end := end - 1;
      rest := rest[..|rest| - 1];
      output[end] := '\0';
      assert output[..end] == whole + ['.'] + rest;
    }
    if rest != [] {
      assert output[..end][end - 1] == rest[|rest| - 1];
      assert IsDigit(rest[|rest| - 1]);
    }
    assert rest == TrimZeros(fraction);
    if end > 0 && output[end - 1] == '.' {
      assert rest == [];
      end := end - 1;
      output[end] := '\0';
      assert output[..end] == whole;
    }
    DigitsHaveNoNul(whole);
    DigitsHaveNoNul(rest);
  }

  /** Nothing changed from position `i` on. */
  predicate KeptFrom(now: seq<char>, was: seq<char>, i: nat) {
    |now| == |was| && forall k :: i <= k < |now| ==> now[k] == was[k]
  }

  lemma KeptButFirst(now: seq<char>, was: seq<char>, i: nat)
    requires 0 < i && was != [] && |now| == |was| && now == was[0 := now[0]]
    ensures KeptFrom(now, was, i)
  {
  }

  lemma KeptAll(a: seq<char>, i: nat)
    ensures KeptFrom(a, a, i)
  {
  }

  /** memcpy of characters: dst[at..at+n] becomes src[from..from+n], the rest stays. */
  method CopyChars(dst: array<char>, at: nat, src: array<char>, from: nat, n: nat)
    requires dst != src && at + n <= dst.Length && from + n <= src.Length
    modifies dst
    ensures dst[..at] == old(dst[..at]) && dst[at..at + n] == src[from..from + n]
    ensures dst[at + n..] == old(dst[at + n..])
  {
    forall i | 0 <= i < n {
      dst[at + i] := src[from + i];
    }
  }

  /** memset to '0'. */
  method FillZeros(dst: array<char>, at: nat, n: nat)
    requires at + n <= dst.Length
    modifies dst
    ensures dst[..at] == old(dst[..at]) && dst[at..at + n] == Zeros(n)
    ensures dst[at + n..] == old(dst[at + n..])
  {
    forall i | 0 <= i < n {
      dst[at + i] := '0';
    }
  }

  /** "0." and zeros in front of the numeral. */
  method PlaceInFront(input: array<char>, ghost s: string, len: nat, precision: nat, output: array<char>)
    requires IsCString(input[..], s) && len == |s| && input != output
    requires 0 < len <= precision && precision + 3 <= output.Length
    modifies output
    ensures output[..precision + 2] == ['0', '.'] + Zeros(precision - len) + s && output[precision + 2] == '\0'
    ensures KeptFrom(output[..], old(output[..]), precision + 3)
  {
    assert input[0..len] == s;
    output[0] := '0';
    output[1] := '.';
    var zeros := precision - len;
    FillZeros(output, 2, zeros);
    CopyChars(output, 2 + zeros, input, 0, len);
    output[2 + zeros + len] := '\0';
    assert output[..2 + zeros + len] == output[..2 + zeros] + output[2 + zeros..2 + zeros + len];
    assert output[..2 + zeros] == ['0', '.'] + Zeros(zeros);
  }

  /** The point between the digits of the numeral. */
  method PlaceInside(input: array<char>, ghost s: string, len: nat, precision: nat, output: array<char>)
    requires IsCString(input[..], s) && len == |s| && input != output
    requires 0 < precision < len && len + 2 <= output.Length
    modifies output
    ensures output[..len + 1] == s[..len - precision] + ['.'] + s[len - precision..] && output[len + 1] == '\0'
    ensures KeptFrom(output[..], old(output[..]), len + 2)
  {
    var intLen := len - precision;
    assert input[intLen..len] == s[intLen..] && input[0..intLen] == s[..intLen];
    CopyChars(output, 0, input, 0, intLen);
    output[intLen] := '.';
    CopyChars(output, intLen + 1, input, intLen, precision);
    output[intLen + 1 + precision] := '\0';
    assert output[..len + 1] == output[..intLen + 1] + output[intLen + 1..len + 1];
    assert output[..intLen + 1] == s[..intLen] + ['.'];
  }

  lemma PointedHasNoNul(s: string, p: nat)
    requires AllDigits(s)
    ensures '\0' !in Pointed(s, p)
    ensures s != [] ==> |Pointed(s, p)| + 1 == Written(|s|, p)
  {
  }

  /** The numeral with its point, before trimming. */
  method PlacePoint(input: array<char>, ghost s: string, len: nat, precision: nat, output: array<char>)
    requires IsCString(input[..], s) && s != [] && AllDigits(s) && len == |s| && input != output
    requires Written(len, precision) <= output.Length
    modifies output
    ensures IsCString(output[..], Pointed(s, precision))
    ensures KeptFrom(output[..], old(output[..]), Written(len, precision))
  {
    PointedHasNoNul(s, precision);
    if precision >= len {
      PlaceInFront(input, s, len, precision, output);
    } else if precision == 0 {
      CopyChars(output, 0, input, 0, len + 1);
      assert output[0..len + 1] == input[0..len + 1];
      assert output[..len] == output[0..len + 1][..len] && output[len] == output[0..len + 1][len];
      assert input[0..len + 1][..len] == s;
    } else {
      PlaceInside(input, s, len, precision, output);
    }
  }

  /** Pointing a numeral separates whole part and fraction. */
  lemma PointedParts(v: nat, p: nat)
    ensures var text := Pointed(Digits(v), p);
            text == if p == 0 then Digits(v)
                    else Digits(Quotient(v, p)) + ['.'] + Fixed(Remainder(v, p), p)
    ensures p == 0 ==> AmountText(v, p) == Digits(v)
  {
    NumeralParts(v, p);
    hide Digits, Fixed, Quotient, Remainder;
    if p > 0 && p >= |Digits(v)| {
      assert ['0', '.'] + Zeros(p - |Digits(v)|) + Digits(v) == "0" + ['.'] + (Zeros(p - |Digits(v)|) + Digits(v));
    }
    if p == 0 {
      assert Digits(v)[..|Digits(v)|] == Digits(v);
    }
  }

  /** Placing and trimming stay within the bytes counted by `Written`, the last of which is NUL. */
  lemma WriteBounds(was: seq<char>, pointed: seq<char>, now: seq<char>, text: string, precision: nat, len: nat,
                    outputLen: nat)
    requires KeptFrom(pointed, was, Written(len, precision)) && IsCString(pointed, text)
    requires KeptFrom(now, pointed, |text|) && |text| + 1 == Written(len, precision) &&
             Reserved(len, precision) <= outputLen
    ensures precision == len && outputLen == precision + 2 ==> outputLen < |now| && now[outputLen] == '\0'
    ensures KeptFrom(now, was, if precision == len && outputLen == precision + 2 then outputLen + 1 else outputLen)
  {
    ReservedCovers(len, precision);
  }

  /** A numeral gets its decimal point and loses its trailing zeros. The array is the memory from the
      start of the output on, of which `outputLen` characters are the output. Nothing behind the output
      changes, except where the size test is one byte short: there the NUL lands just behind it. */
  method ProcessPrecision(input: array<char>, ghost v: nat, precision: nat, output: array<char>, outputLen: nat)
    returns (ok: bool)
    requires IsCString(input[..], Digits(v)) && input != output
    requires outputLen <= output.Length
    requires precision == |Digits(v)| && outputLen == precision + 2 ==> outputLen < output.Length
    modifies output
    ensures ok == (Reserved(|Digits(v)|, precision) <= outputLen)
    ensures ok ==> IsCString(output[..], AmountText(v, precision))
    ensures !ok && outputLen > 0 ==> output[0] == '\0'
    ensures precision == |Digits(v)| && outputLen == precision + 2 ==> ok && output[outputLen] == '\0'
    ensures var end := if precision == |Digits(v)| && outputLen == precision + 2 then outputLen + 1 else outputLen;
            KeptFrom(output[..], old(output[..]), end)
  {
    hide Digits, Fixed, Quotient, Remainder, TrimZeros, Pointed, KeptFrom;
    ghost var whole, fraction := Digits(Quotient(v, precision)), Fixed(Remainder(v, precision), precision);
    PointedParts(v, precision);
    var len := StrLen(input, Digits(v));
    var maxLen := len + (if precision > len then precision - len + 2 else 1);
    ghost var was := output[..];
    if outputLen == 0 {
      KeptAll(was, 0);
      return false;
    }
    if maxLen + 1 > outputLen {
      output[0] := '\0';
      KeptButFirst(output[..], was, outputLen);
      return false;
    }
    PlacePoint(input, Digits(v), len, precision, output);
    ghost var text, pointed := Pointed(Digits(v), precision), output[..];
    PointedHasNoNul(Digits(v), precision);
    var ptr := StrChr(output, text, '.');
    DigitsHaveNoNul(Digits(v));
    PointInText(text, whole, fraction);
    if ptr.Some? {
      TrimInPlace(output, ptr.value, whole, fraction);
    } else {
      KeptAll(output[..], |text|);
    }
    WriteBounds(was, pointed, output[..], text, precision, |Digits(v)|, outputLen);
    ok := true;
  }

  method FormatFpu128Trimmed(dst: array<char>, low: nat, high: nat, decimals: nat) returns (ok: bool)
    requires high < U64 && low < U64 && dst.Length >= 43
    modifies dst
    ensures ok == (decimals <= 39)
    ensures ok ==> IsCString(dst[..], AmountText(Value(high, low), decimals))
  {
    if decimals > UINT128_MAX_LENGTH - 1 {
      return false;
    }
    var buffer := new char[UINT128_MAX_LENGTH](_ => '\0');
    U128Digits(Value(high, low));
    ok := FormatU128(high, low, buffer, UINT128_MAX_LENGTH);
    if ok {
      ok := ProcessPrecision(buffer, Value(high, low), decimals, dst, dst.Length);
    }
  }

  /** The text of a stored amount; 43 bytes are always enough (the app's buffers have 67). */
  method ConvertParamAmountToChars(b: seq<byte>, s: Slot, decimals: nat, hasPrefix: bool, amount: array<char>)
    returns (ok: bool)
    requires InBytes(b, s) && amount.Length >= 43
    modifies amount
    ensures ok == ParamText(b, s, decimals, hasPrefix).Some?
    ensures ok ==> IsCString(amount[..], ParamText(b, s, decimals, hasPrefix).value)
  {
    if !s.Slot? || (s.kind != AmountKind && s.kind != Uint128Kind) {
      return false;
    }
    ok := hasPrefix || s.len == 2 * 8;
    if ok {
      var low, high;
      ok, low, high := ConvertParamsToUint128Le(b, s, hasPrefix);
      if ok {
        ok := FormatFpu128Trimmed(amount, low, high, decimals);
      }
    }
  }
}
