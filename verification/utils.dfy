/** src/transaction/utils.c: decoding amounts and printing them in decimal. */
module Utils {
  import opened Options
  import opened Bytes
  import opened TxTypes
  import opened Grammar
  import opened Decimal

  /** A slot lies inside the transaction bytes. */
  predicate InBytes(b: seq<byte>, s: Slot) {
    s.Slot? ==> s.start + s.len <= |b|
  }

  // ----- what the decoders compute

  /** convert_param_to_uint64_le. */
  function ParamU64(b: seq<byte>, s: Slot): Option<nat>
    requires InBytes(b, s)
  {
    if !s.Slot? || s.kind != AmountKind || s.len > 9 || s.len == 0 then None
    else
      var d := SlotBytes(b, s);
      if d[0] == 0 then if s.len == 1 then Some(0) else None
      else if 0x50 < d[0] <= 0x60 then if s.len == 1 then Some(d[0] - 0x50) else None
      else if s.len - 1 == d[0] then Some(LeValue(d[1..]))
      else None
  }

  /** convert_params_to_uint128_le, as one number high * 2^64 + low. */
  function ParamU128(b: seq<byte>, s: Slot, hasPrefix: bool): Option<nat>
    requires InBytes(b, s)
  {
    if !s.Slot? then None
    else
      var d := SlotBytes(b, s);
      if s.kind == AmountKind && hasPrefix && 0 < s.len <= 17 then
        if s.len <= 9 then ParamU64(b, s)
        else Some(LeValue(d[9..]) * U64 + LeValue(d[1..9]))
      else if s.kind == Uint128Kind && !hasPrefix && s.len == 16 then
        Some(LeValue(d[8..]) * U64 + LeValue(d[..8]))
      else None
  }

  /** convert_param_amount_to_chars, for a buffer that is large enough. */
  function ParamText(b: seq<byte>, s: Slot, decimals: nat, hasPrefix: bool): Option<string>
    requires InBytes(b, s)
  {
    if decimals > 39 then None
    else
      match ParamU128(b, s, hasPrefix)
      case None => None
      case Some(v) => Some(AmountText(v, decimals))
  }

  lemma Regroup(x: nat, p: nat)
    ensures 256 * (x * p) == x * (256 * p)
  {
  }

  lemma {:induction false} LeSplit(bs: seq<byte>, k: nat)
    requires k <= |bs|
    ensures LeValue(bs) == LeValue(bs[..k]) + LeValue(bs[k..]) * Pow256(k)
  {
    if k > 0 {
      LeSplit(bs[1..], k - 1);
      assert bs[..k][1..] == bs[1..][..k - 1];
      assert bs[k..] == bs[1..][k - 1..];
      Regroup(LeValue(bs[k..]), Pow256(k - 1));
    } else {
      assert bs[0..] == bs;
    }
  }

  /** Parsing and decoding agree: an encoded amount decodes to its value, below 2^128, in the
      64-bit decoder exactly when it has at most 8 value bytes. */
  lemma AmountDecodes(b: seq<byte>, off: nat, a: Amount)
    requires AmountOk(a) && Occurs(b, off, PrintAmount(a))
    ensures ParamU128(b, AmountSlot(a, off), true) == Some(AmountValue(a))
    ensures AmountValue(a) < U64 * U64
    ensures ParamU64(b, AmountSlot(a, off)) ==
            if a.Prefixed? && |a.raw| > 8 then None else Some(AmountValue(a))
  {
    Pow256Values();
    var s := AmountSlot(a, off);
    var d := SlotBytes(b, s);
    assert d == PrintAmount(a);
    match a
    case Zero =>
    case Push(n) =>
    case Prefixed(raw) =>
      assert d[1..] == raw;
      LeValueBound(raw);
      if |raw| <= 8 {
        assert Pow256(|raw|) <= Pow256(16) by { Pow256Monotone(|raw|, 16); }
      } else {
        assert d[1..9] == raw[..8] && d[9..] == raw[8..];
        LeSplit(raw, 8);
        Pow256Monotone(|raw|, 16);
      }
  }

  lemma {:induction false} Pow256Monotone(m: nat, n: nat)
    requires m <= n
    ensures Pow256(m) <= Pow256(n)
    decreases n
  {
    if m < n {
      Pow256Monotone(m, n - 1);
    }
  }

  /** The unprefixed 16 bytes of a WebAssembly call decode to their value. */
  lemma Uint128Decodes(b: seq<byte>, off: nat, raw: seq<byte>)
    requires |raw| == 16 && Occurs(b, off, raw)
    ensures ParamU128(b, Slot(Uint128Kind, off, 16), false) == Some(LeValue(raw)) && LeValue(raw) < U64 * U64
  {
    Pow256Values();
    LeValueBound(raw);
    LeSplit(raw, 8);
  }

  lemma ParamU128Bound(b: seq<byte>, s: Slot, hasPrefix: bool)
    requires InBytes(b, s)
    ensures var r := ParamU128(b, s, hasPrefix); r.Some? ==> r.value < U64 * U64
  {
    Pow256Values();
    var r := ParamU128(b, s, hasPrefix);
    if r.Some? {
      var d := SlotBytes(b, s);
      if s.kind == AmountKind {
        if s.len <= 9 {
          LeValueBound(d[1..]);
          Pow256Monotone(|d| - 1, 8);
        } else {
          LeValueBound(d[1..9]);
          LeValueBound(d[9..]);
          Pow256Monotone(|d| - 9, 8);
        }
      } else {
        LeValueBound(d[..8]);
        LeValueBound(d[8..]);
      }
    }
  }

  // ----- the shift-or loop

  function Pow2(n: nat): (p: nat)
    ensures p > 0
  {
    if n == 0 then 1 else 2 * Pow2(n - 1)
  }

  /** Bitwise or, on numbers. */
  function Or(a: nat, c: nat): nat
    decreases a + c
  {
    if a == 0 then c else if c == 0 then a
    else 2 * Or(a / 2, c / 2) + (if a % 2 == 1 || c % 2 == 1 then 1 else 0)
  }

  /** A 64-bit left shift. */
  function Shl64(x: nat, k: nat): nat {
    (x * Pow2(k)) % U64
  }

  /** Bits that do not overlap add up. */
  lemma {:induction false} OrDisjoint(a: nat, x: nat, k: nat)
    requires a < Pow2(k)
    ensures Or(a, x * Pow2(k)) == a + x * Pow2(k)
    decreases k
  {
    if k > 0 && a > 0 && x > 0 {
      var c := x * Pow2(k - 1);
      assert x * Pow2(k) == 2 * c;
      assert c > 0;
      OrDisjoint(a / 2, x, k - 1);
    }
  }

  lemma {:induction false} Pow2Of8(n: nat)
    ensures Pow2(8 * n) == Pow256(n)
  {
    if n > 0 {
      Pow2Of8(n - 1);
      var m := 8 * (n - 1);
      assert Pow2(m + 2) == 2 * Pow2(m + 1) == 4 * Pow2(m);
      assert Pow2(m + 4) == 2 * Pow2(m + 3) == 4 * Pow2(m + 2);
      assert Pow2(m + 6) == 2 * Pow2(m + 5) == 4 * Pow2(m + 4);
      assert Pow2(m + 8) == 2 * Pow2(m + 7) == 4 * Pow2(m + 6);
    }
  }

  /** Oring in byte `i`, shifted by 8 * i, extends the little-endian sum. */
  lemma OrByte(bs: seq<byte>, i: nat)
    requires i < |bs| <= 8
    ensures Or(LeValue(bs[..i]), Shl64(bs[i], 8 * i)) == LeValue(bs[..i + 1])
  {
    hide LeValue, Or, Pow2, Pow256;
    LeValueBound(bs[..i]);
    Pow2Of8(i);
    ByteFits(bs[i], i);
    assert Shl64(bs[i], 8 * i) == bs[i] * Pow256(i);
    OrDisjoint(LeValue(bs[..i]), bs[i], 8 * i);
    LeSplit(bs[..i + 1], i);
    assert bs[..i + 1][..i] == bs[..i] && bs[..i + 1][i..] == [bs[i]];
    OneByteValue(bs[i]);
  }

  lemma OneByteValue(x: byte)
    ensures LeValue([x]) == x
  {
  }

  lemma ByteFits(x: byte, i: nat)
    requires i < 8
    ensures x * Pow256(i) < U64
  {
    Pow256Values();
    Pow256Monotone(i + 1, 8);
    MultiplyMonotone(x, 255, Pow256(i));
  }

  lemma MultiplyMonotone(x: nat, y: nat, z: nat)
    requires x <= y
    ensures x * z <= y * z
  {
  }

  method ConvertBytesToUint64Le(amount: seq<byte>) returns (ok: bool, out: nat)
    ensures ok == (1 <= |amount| <= 8)
    ensures ok ==> out == LeValue(amount) && out < U64
  {
    out := 0;
    if |amount| > 8 || |amount| == 0 {
      return false, out;
    }
    for i := 0 to |amount|
      invariant out == LeValue(amount[..i])
    {
      OrByte(amount, i);
      out := Or(out, Shl64(amount[i], 8 * i));
    }
    assert amount[..|amount|] == amount;
    LeValueBound(amount);
    Pow256Monotone(|amount|, 8);
    Pow256Values();
    ok := true;
  }

  method ConvertParamToUint64Le(b: seq<byte>, s: Slot) returns (ok: bool, out: nat)
    requires InBytes(b, s)
    ensures ok == ParamU64(b, s).Some?
    ensures ok ==> out == ParamU64(b, s).value && out < U64
  {
    out := 0;
    if !s.Slot? || s.kind != AmountKind {
      return false, out;
    }
    if s.len > 8 + 1 || s.len == 0 {
      return false, out;
    }
    var amt := b[s.start];
    assert amt == SlotBytes(b, s)[0];
    if amt == 0 {
      return s.len == 1, out;
    }
    if amt > 0x50 && amt <= 0x50 + 16 {
      return s.len == 1, amt - 0x50;
    }
    ok := s.len - 1 == amt;
    if ok {
      assert b[s.start + 1..s.start + 1 + amt] == SlotBytes(b, s)[1..];
      ok, out := ConvertBytesToUint64Le(b[s.start + 1..s.start + 1 + amt]);
    }
  }

  /** A number of more than eight bytes, by its two halves. */
  lemma WideValue(b: seq<byte>, s: Slot, hasPrefix: bool)
    requires InBytes(b, s) && s.Slot?
    requires || (s.kind == AmountKind && hasPrefix && 10 <= s.len <= 17)
             || (s.kind == Uint128Kind && !hasPrefix && s.len == 16)
    ensures var at := s.start + (if hasPrefix then 1 else 0);
            ParamU128(b, s, hasPrefix) == Some(LeValue(b[at + 8..s.start + s.len]) * U64 + LeValue(b[at..at + 8]))
  {
    hide LeValue;
    var p := if hasPrefix then 1 else 0;
    SlotSlice(b, s, p, p + 8);
    SlotSlice(b, s, p + 8, s.len);
    SlotRest(b, s, p + 8);
  }

  lemma SlotSlice(b: seq<byte>, s: Slot, i: nat, j: nat)
    requires s.Slot? && InBytes(b, s) && i <= j <= s.len
    ensures b[s.start + i..s.start + j] == SlotBytes(b, s)[i..j]
  {
    var x, y := b[s.start + i..s.start + j], SlotBytes(b, s)[i..j];
    forall k | 0 <= k < |x|
      ensures x[k] == y[k]
    {
      assert SlotBytes(b, s)[i + k] == b[s.start + (i + k)];
    }
  }

  lemma SlotRest(b: seq<byte>, s: Slot, i: nat)
    requires s.Slot? && InBytes(b, s) && i <= s.len
    ensures SlotBytes(b, s)[i..s.len] == SlotBytes(b, s)[i..]
  {
    var d := SlotBytes(b, s);
    assert d[..s.len] == d;
  }

  method ConvertParamsToUint128Le(b: seq<byte>, s: Slot, hasPrefix: bool) returns (ok: bool, low: nat, high: nat)
    requires InBytes(b, s)
    ensures ok == ParamU128(b, s, hasPrefix).Some?
    ensures ok ==> low < U64 && high < U64 && ParamU128(b, s, hasPrefix).value == high * U64 + low
  {
    hide LeValue;
    low, high := 0, 0;
    if || !s.Slot? || (s.kind != AmountKind && s.kind != Uint128Kind)
       || (s.kind == AmountKind && (!hasPrefix || s.len > 2 * 8 + 1))
       || (s.kind == Uint128Kind && (hasPrefix || s.len != 2 * 8))
       || s.len == 0
    {
      return false, low, high;
    }
    var prefixLen := if hasPrefix then 1 else 0;
    var highLen := if s.len > 8 + prefixLen then s.len - 8 - prefixLen else 0;
    if hasPrefix && highLen == 0 {
      ok, low := ConvertParamToUint64Le(b, s);
    } else {
      WideValue(b, s, hasPrefix);
      hide ParamU128;
      var at := s.start + prefixLen;
      ok, low := ConvertBytesToUint64Le(b[at..at + 8]);
      if ok {
        ok, high := ConvertBytesToUint64Le(b[at + 8..at + 8 + highLen]);
      }
    }
  }
}
