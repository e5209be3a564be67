/**
 src/transaction/parse.c. Every parser advances the buffer; parameters go to slots of the
 transaction. A reference into the slots is the array with an index, so each write of a slot carries
 its bounds obligation. Each method is proved against its function in `ParserSpec`.
 */
module Parse {
  import opened Options
  import opened Bytes
  import opened TxTypes
  import opened Grammar
  import opened ParserSpec
  import opened GrammarProofs
  import opened Reader
  import opened Utils
  import opened Contracts

  method CheckConstant(buf: Buffer, str: seq<byte>) returns (ok: bool)
    requires buf.Valid() && |str| > 0
    modifies buf
    ensures buf.Valid()
    ensures ok == Occurs(buf.bytes, old(buf.offset), str)
    ensures buf.offset == if ok then old(buf.offset) + |str| else old(buf.offset)
  {
    ok := buf.CanRead(|str|) && buf.bytes[buf.offset..buf.offset + |str|] == str;
    if ok {
      ok := buf.SeekCur(|str|);
    }
  }

  method ParseAmount(buf: Buffer) returns (ok: bool, out: Slot)
    requires buf.Valid()
    modifies buf
    ensures buf.Valid()
    ensures var r := AmountAt(buf.bytes, old(buf.offset));
            ok == r.At? && (ok ==> buf.offset == r.end && out == AmountSlot(r.value, old(buf.offset)))
  {
    out := NoSlot;
    var amt: byte;
    ok, amt := buf.ReadU8();
    if !ok {
      return;
    }
    var len: nat;
    if (amt > 0x50 && amt <= 0x50 + 16) || amt == 0 {
      len := 1;
    } else if amt > 2 * 8 {
      return false, out;
    } else {
      len := amt + 1;
    }
    out := Slot(AmountKind, buf.offset - 1, len);
    ok := buf.SeekCur(len - 1);
  }

  method ParseGetAmount(buf: Buffer) returns (ok: bool, out: nat)
    requires buf.Valid()
    modifies buf
    ensures buf.Valid()
    ensures var r := AmountAt(buf.bytes, old(buf.offset));
            && ok == (r.At? && Counts(r.value, AmountValue(r.value)))
            && (ok ==> buf.offset == r.end && out == AmountValue(r.value))
  {
    var tmp;
    out := 0;
    ok, tmp := ParseAmount(buf);
    if ok {
      SlotOfAmount(buf.bytes, old(buf.offset));
      ok, out := ConvertParamToUint64Le(buf.bytes, tmp);
    }
  }

  /** The slot of a parsed amount is inside the buffer and decodes to the amount. */
  lemma SlotOfAmount(b: seq<byte>, off: nat)
    ensures var r := AmountAt(b, off);
            r.At? ==>
              && AmountOk(r.value)
              && InBytes(b, AmountSlot(r.value, off))
              && (Counts(r.value, AmountValue(r.value)) <==> !(r.value.Prefixed? && |r.value.raw| > 8))
              && ParamU64(b, AmountSlot(r.value, off)) ==
                 if r.value.Prefixed? && |r.value.raw| > 8 then None else Some(AmountValue(r.value))
  {
    hide ParamU64, ParamU128, AmountValue, AmountAt;
    var r := AmountAt(b, off);
    if r.At? {
      AmountParse(b, off, r.value, r.end);
      AmountDecodes(b, off, r.value);
    }
  }

  method CheckAmount(buf: Buffer, num: nat) returns (ok: bool)
    requires buf.Valid()
    modifies buf
    ensures buf.Valid()
    ensures var r := CountAt(buf.bytes, old(buf.offset), num);
            ok == r.At? && (ok ==> buf.offset == r.end)
  {
    var out;
    ok, out := ParseGetAmount(buf);
    ok := ok && out == num;
  }

  method ParseUint128(buf: Buffer) returns (ok: bool, out: Slot)
    requires buf.Valid()
    modifies buf
    ensures buf.Valid() && ok == (old(buf.offset) + 16 <= |buf.bytes|)
    ensures ok ==> buf.offset == old(buf.offset) + 16 && out == Slot(Uint128Kind, old(buf.offset), 16)
  {
    out := NoSlot;
    var size := 16;
    if !buf.CanRead(size) {
      return false, out;
    }
    out := Slot(Uint128Kind, buf.offset, size);
    ok := buf.SeekCur(size);
  }

  method ParsePk(buf: Buffer) returns (ok: bool, out: Slot)
    requires buf.Valid()
    modifies buf
    ensures buf.Valid() && ok == KeyAt(buf.bytes, old(buf.offset))
    ensures ok ==> buf.offset == old(buf.offset) + 67 && out == Slot(PubKeyKind, old(buf.offset) + 1, 66)
  {
    out := NoSlot;
    var size: byte;
    ok, size := buf.ReadU8();
    if !ok || size != 2 * 33 || !buf.CanRead(2 * 33) {
      return false, out;
    }
    out := Slot(PubKeyKind, buf.offset, size);
    ok := buf.SeekCur(size);
  }

  method ParseOntId(buf: Buffer) returns (ok: bool)
    requires buf.Valid()
    modifies buf
    ensures buf.Valid()
    ensures var b, off := buf.bytes, old(buf.offset);
            && ok == (off < |b| && b[off] != 0 && off + 1 + b[off] <= |b|)
            && (ok ==> buf.offset == off + 1 + b[off])
  {
    var size: byte;
    ok, size := buf.ReadU8();
    ok := ok && size != 0;
    if ok {
      ok := buf.SeekCur(size);
    }
  }

  method ParseAddress(buf: Buffer, hasLength: bool) returns (ok: bool, out: Slot)
    requires buf.Valid()
    modifies buf
    ensures buf.Valid()
    ensures ok == if hasLength then LenAddrAt(buf.bytes, old(buf.offset)) else old(buf.offset) + 20 <= |buf.bytes|
    ensures var prefix := if hasLength then 1 else 0;
            ok ==> buf.offset == old(buf.offset) + prefix + 20 && out == Slot(AddrKind, old(buf.offset) + prefix, 20)
  {
    out := NoSlot;
    var prefixLen := if hasLength then 1 else 0;
    if !buf.CanRead(20 + prefixLen) {
      return false, out;
    }
    if hasLength {
      var size: byte;
      ok, size := buf.ReadU8();
      if !ok || size != 20 {
        return false, out;
      }
    }
    out := Slot(AddrKind, buf.offset, 20);
    ok := buf.SeekCur(20);
  }

  /** The source leaves the type of a method-name slot unset; AddrKind stands for that. */
  method ParseMethodName(buf: Buffer) returns (ok: bool, out: Slot)
    requires buf.Valid()
    modifies buf
    ensures buf.Valid()
    ensures var b, off := buf.bytes, old(buf.offset);
            && ok == (off < |b| && b[off] != 0 && off + 1 + b[off] <= |b|)
            && (ok ==> buf.offset == off + 1 + b[off] && out == Slot(AddrKind, off + 1, b[off]))
  {
    out := NoSlot;
    var size: byte;
    ok, size := buf.ReadU8();
    if !ok || size == 0 || !buf.CanRead(size) {
      return false, out;
    }
    out := Slot(AddrKind, buf.offset, size);
    ok := buf.SeekCur(size);
  }

  /** Slots outside from..to are as they were. */
  predicate Outside(now: seq<Slot>, was: seq<Slot>, from: nat, to: nat) {
    |now| == |was| && forall j :: 0 <= j < |now| && !(from <= j < to) ==> now[j] == was[j]
  }

  lemma KeepSlice(now: seq<Slot>, was: seq<Slot>, from: nat, to: nat, i: nat, j: nat)
    requires Outside(now, was, from, to) && i <= j <= |now| && (j <= from || to <= i)
    ensures now[i..j] == was[i..j]
  {
  }

  lemma KeepSlot(now: seq<Slot>, was: seq<Slot>, from: nat, to: nat, j: nat)
    requires Outside(now, was, from, to) && j < |now| && (j < from || to <= j)
    ensures now[j] == was[j]
  {
  }

  lemma OutsideTwice(s0: seq<Slot>, s1: seq<Slot>, s2: seq<Slot>, from: nat, to: nat, from': nat, to': nat)
    requires Outside(s1, s0, from, to) && Outside(s2, s1, from', to') && from <= from'
    ensures Outside(s2, s0, from, if to <= to' then to' else to)
  {
  }

  /** The two addresses of a transfer state, with the constants around them. */
  method ParseStateHead(t: Target, buf: Buffer, slots: array<Slot>, cur: nat) returns (ok: bool)
    requires buf.Valid() && slots.Length == t.maxParams && cur + 3 <= slots.Length
    modifies buf, slots
    ensures buf.Valid()
    ensures var b, off := buf.bytes, old(buf.offset);
            && ok == (&& Occurs(b, off, OPCODE_ST_BEGIN) && LenAddrAt(b, off + 3)
                      && Occurs(b, off + 24, OPCODE_PARAM_END)
                      && LenAddrAt(b, off + 27) && Occurs(b, off + 48, OPCODE_PARAM_END))
            && (ok ==> && buf.offset == off + 51 && slots[cur] == Slot(AddrKind, off + 4, 20)
                       && slots[cur + 1] == Slot(AddrKind, off + 28, 20))
    ensures Outside(slots[..], old(slots[..]), cur, cur + 2)
  {
    hide Occurs, LenAddrAt;
    ok := CheckConstant(buf, OPCODE_ST_BEGIN);
    if ok {
      ok, slots[cur] := ParseAddress(buf, true);
    }
    if ok {
      ok := CheckConstant(buf, OPCODE_PARAM_END);
    }
    if ok {
      ok, slots[cur + 1] := ParseAddress(buf, true);
    }
    if ok {
      ok := CheckConstant(buf, OPCODE_PARAM_END);
    }
  }

  method ParseTransferState(t: Target, buf: Buffer, slots: array<Slot>, cur: nat) returns (ok: bool, next: nat)
    requires buf.Valid() && slots.Length == t.maxParams && cur <= slots.Length
    modifies buf, slots
    ensures buf.Valid() && cur <= next <= slots.Length
    ensures var r := TransferAt(buf.bytes, old(buf.offset));
            && ok == (cur + 3 <= t.maxParams && r.At?)
            && (ok ==> next == cur + 3 && buf.offset == r.end
                       && slots[cur..next] == TransferSlots(r.value, old(buf.offset)))
    ensures Outside(slots[..], old(slots[..]), cur, if ok then next else slots.Length)
  {
    hide AmountAt, Occurs, LenAddrAt;
    next := cur;
    if cur + 3 > t.maxParams {
      return false, next;
    }
    ok := ParseStateHead(t, buf, slots, cur);
    if ok {
      ok, slots[cur + 2] := ParseAmount(buf);
    }
    if ok {
      ok := CheckConstant(buf, OPCODE_PARAM_END);
    }
    if ok {
      ok := CheckConstant(buf, OPCODE_ST_END);
    }
    if ok {
      next := cur + 3;
    }
  }

  // ----- lists: how a loop extends what has been parsed

  function Prepend<T>(done: seq<T>, r: Parsed<seq<T>>): (q: Parsed<seq<T>>)
    ensures q.At? <==> r.At?
    ensures q.At? ==> q == At(done + r.value, r.end)
  {
    match r
    case Bad => Bad
    case At(xs, e) => At(done + xs, e)
  }

  lemma PrependNil<T>(r: Parsed<seq<T>>)
    ensures Prepend([], r) == r
    ensures forall xs: seq<T>, e :: Prepend(xs, At([], e)) == At(xs, e)
  {
    if r.At? {
      assert [] + r.value == r.value;
    }
    forall xs: seq<T>, e
      ensures Prepend(xs, At([], e)) == At(xs, e)
    {
      assert xs + [] == xs;
    }
  }

  lemma PrependCons<T>(done: seq<T>, x: T, r: Parsed<seq<T>>)
    ensures Prepend(done, Cons(x, r)) == Prepend(done + [x], r)
  {
    if r.At? {
      assert done + ([x] + r.value) == done + [x] + r.value;
    }
  }

  lemma {:induction false} KeySlotsAppend(n: nat, off: nat)
    ensures KeySlots(n + 1, off) == KeySlots(n, off) + [Slot(PubKeyKind, off + 70 * n + 1, 66)]
  {
    if n > 0 {
      KeySlotsAppend(n - 1, off + 70);
    }
  }

  /** Room for every key the buffer can hold, and one more attempt. */
  predicate RoomForKeys(t: Target, cur: nat) {
    cur + t.maxTx / 70 + 1 < t.maxParams
  }

  /** One key and the separator behind it. */
  method ParseKey(buf: Buffer, slots: array<Slot>, at: nat) returns (ok: bool)
    requires buf.Valid() && at < slots.Length
    modifies buf, slots
    ensures buf.Valid()
    ensures var b, off := buf.bytes, old(buf.offset);
            && ok == (KeyAt(b, off) && Occurs(b, off + 67, OPCODE_PARAM_END))
            && (ok ==> buf.offset == off + 70 && slots[at] == Slot(PubKeyKind, off + 1, 66))
    ensures Outside(slots[..], old(slots[..]), at, at + 1)
  {
    hide Occurs, KeyAt;
    ok, slots[at] := ParsePk(buf);
    if ok {
      ok := CheckConstant(buf, OPCODE_PARAM_END);
    }
  }

  /** The first loop of parse_pk_amount_pairs. `n` may be any 64-bit number: the buffer runs out
      of bytes before the slots run out. */
  method ParseKeys(t: Target, buf: Buffer, slots: array<Slot>, cur: nat, n: nat) returns (ok: bool)
    requires buf.Valid() && |buf.bytes| <= t.maxTx && slots.Length == t.maxParams && RoomForKeys(t, cur)
    modifies buf, slots
    ensures buf.Valid()
    ensures var off := old(buf.offset);
            && ok == KeysAt(buf.bytes, off, n).At?
            && (ok ==> buf.offset == off + 70 * n && cur + 1 + n <= slots.Length
                       && slots[cur + 1..cur + 1 + n] == KeySlots(n, off))
    ensures Outside(slots[..], old(slots[..]), cur + 1, if ok then cur + 1 + n else slots.Length)
  {
    hide KeysSoFar, Occurs, KeyAt, KeySlots, KeysAt, Outside;
    var i := 1;
    ghost var b, off, was := buf.bytes, buf.offset, slots[..];
    KeysStart(b, off, n, was, cur);
    while i <= n
      invariant 1 <= i <= n + 1 && buf.Valid() && buf.offset == off + 70 * (i - 1)
      invariant KeysSoFar(b, off, n, i - 1, slots[..], was, cur)
    {
      ghost var before := slots[..];
      ok := ParseKey(buf, slots, cur + i);
      KeysStep(b, off, n, i - 1, before, slots[..], was, cur, ok);
      if !ok {
        return;
      }
      i := i + 1;
    }
    KeysFinish(b, off, n, slots[..], was, cur);
    assert slots[..][cur + 1..cur + 1 + n] == slots[cur + 1..cur + 1 + n];
    ok := true;
  }

  /** `k` keys have been parsed and stored. */
  predicate KeysSoFar(b: seq<byte>, off: nat, n: nat, k: nat, now: seq<Slot>, was: seq<Slot>, cur: nat) {
    && k <= n && cur + 1 + k <= |now|
    && (KeysAt(b, off, n).At? <==> KeysAt(b, off + 70 * k, n - k).At?)
    && now[cur + 1..cur + 1 + k] == KeySlots(k, off)
    && Outside(now, was, cur + 1, cur + 1 + k)
  }

  lemma KeysStart(b: seq<byte>, off: nat, n: nat, was: seq<Slot>, cur: nat)
    requires cur + 1 <= |was|
    ensures KeysSoFar(b, off, n, 0, was, was, cur)
  {
    NoKeySlots(off);
  }

  lemma KeysStep(b: seq<byte>, off: nat, n: nat, k: nat, before: seq<Slot>, now: seq<Slot>, was: seq<Slot>, cur: nat,
                 ok: bool)
    requires k < n && cur + 1 + k < |now| && KeysSoFar(b, off, n, k, before, was, cur)
    requires Outside(now, before, cur + 1 + k, cur + 2 + k)
    requires ok == (KeyAt(b, off + 70 * k) && Occurs(b, off + 70 * k + 67, OPCODE_PARAM_END))
    requires ok ==> now[cur + 1 + k] == Slot(PubKeyKind, off + 70 * k + 1, 66)
    ensures if ok then KeysSoFar(b, off, n, k + 1, now, was, cur)
            else KeysAt(b, off, n).Bad? && Outside(now, was, cur + 1, |was|)
  {
    hide KeyAt, Occurs, KeySlots;
    KeySlotsAppend(k, off);
    if ok {
      KeepSlice(now, before, cur + 1 + k, cur + 2 + k, cur + 1, cur + 1 + k);
      assert now[cur + 1..cur + 2 + k] == before[cur + 1..cur + 1 + k] + [now[cur + 1 + k]];
    }
  }

  lemma KeysFinish(b: seq<byte>, off: nat, n: nat, now: seq<Slot>, was: seq<Slot>, cur: nat)
    requires KeysSoFar(b, off, n, n, now, was, cur)
    ensures KeysAt(b, off, n).At? && cur + 1 + n <= |now| && now[cur + 1..cur + 1 + n] == KeySlots(n, off)
    ensures Outside(now, was, cur + 1, cur + 1 + n)
  {
  }

  lemma NoKeySlots(off: nat)
    ensures KeySlots(0, off) == []
  {
  }

  /** Bytes of amounts that are each followed by a separator. */
  function SeparatedLength(xs: seq<Amount>): nat {
    if xs == [] then 0 else |PrintAmount(xs[0])| + 3 + SeparatedLength(xs[1..])
  }

  lemma {:induction false} AmountSlotsAppend(xs: seq<Amount>, a: Amount, off: nat)
    ensures AmountSlots(xs + [a], off) == AmountSlots(xs, off) + [AmountSlot(a, off + SeparatedLength(xs))]
    ensures SeparatedLength(xs + [a]) == SeparatedLength(xs) + |PrintAmount(a)| + 3
  {
    hide PrintAmount, AmountSlot;
    if xs == [] {
      assert [] + [a] == [a];
    } else {
      AmountSlotsAppend(xs[1..], a, off + |PrintAmount(xs[0])| + 3);
      assert (xs + [a])[1..] == xs[1..] + [a];
    }
  }

  /** `done` are the first amounts of a list of `n` starting at `off`; the next one is at `at`. */
  predicate AmountsSoFar(b: seq<byte>, off: nat, n: nat, done: seq<Amount>, at: nat) {
    && |done| <= n
    && if |done| == n then AmountsAt(b, off, n) == At(done, at)
       else at == off + SeparatedLength(done) && AmountsAt(b, off, n) == Prepend(done, AmountsAt(b, at, n - |done|))
  }

  lemma AmountsStart(b: seq<byte>, off: nat, n: nat)
    ensures AmountsSoFar(b, off, n, [], off)
    ensures AmountSlots([], off) == []
  {
    PrependNil(AmountsAt(b, off, n));
  }

  /** Parsing the last amount. */
  lemma AmountsLast(b: seq<byte>, off: nat, n: nat, done: seq<Amount>, at: nat)
    requires AmountsSoFar(b, off, n, done, at) && |done| + 1 == n
    ensures var r := AmountAt(b, at);
            if r.Bad? then AmountsAt(b, off, n) == Bad
            else AmountsSoFar(b, off, n, done + [r.value], r.end)
  {
    hide AmountAt, PrintAmount, Prepend, SeparatedLength;
    var r := AmountAt(b, at);
    if r.At? {
      PrependLast(done, r.value, r.end);
    }
  }

  /** Parsing one more amount and the separator behind it. */
  lemma AmountsStep(b: seq<byte>, off: nat, n: nat, done: seq<Amount>, at: nat)
    requires AmountsSoFar(b, off, n, done, at) && |done| + 1 < n
    ensures var r := AmountAt(b, at);
            if r.Bad? || !Occurs(b, r.end, OPCODE_PARAM_END) then AmountsAt(b, off, n) == Bad
            else AmountsSoFar(b, off, n, done + [r.value], r.end + 3)
  {
    hide AmountAt, PrintAmount, Occurs, AmountSlot, Prepend, SeparatedLength, AmountSlots;
    var r := AmountAt(b, at);
    if r.At? {
      AmountParse(b, at, r.value, r.end);
      AmountSlotsAppend(done, r.value, off);
      PrependCons(done, r.value, AmountsAt(b, r.end + 3, n - |done| - 1));
    }
  }

  /** The slot of one more amount. */
  lemma AmountsSlot(b: seq<byte>, off: nat, n: nat, done: seq<Amount>, at: nat)
    requires AmountsSoFar(b, off, n, done, at) && |done| < n && AmountAt(b, at).At?
    ensures var a := AmountAt(b, at).value;
            AmountSlots(done + [a], off) == AmountSlots(done, off) + [AmountSlot(a, at)]
  {
    hide AmountAt, AmountsAt, AmountSlots, AmountSlot;
    AmountSlotsAppend(done, AmountAt(b, at).value, off);
  }

  /** The last loop of parse_pk_amount_pairs: no separator behind the last amount. */
  method ParseAmounts(buf: Buffer, slots: array<Slot>, base: nat, n: nat) returns (ok: bool)
    requires buf.Valid() && n > 0 && base + 1 + n <= slots.Length
    modifies buf, slots
    ensures buf.Valid()
    ensures var off := old(buf.offset);
            var r := AmountsAt(buf.bytes, off, n);
            && ok == r.At?
            && (ok ==> buf.offset == r.end && slots[base + 1..base + 1 + n] == AmountSlots(r.value, off))
    ensures Outside(slots[..], old(slots[..]), base + 1, base + 1 + n)
  {
    hide Occurs, AmountAt, AmountsAt, AmountSlot, AmountSlots, AmountsSoFar;
    var i := 1;
    ghost var b, done, off, was := buf.bytes, [], buf.offset, slots[..];
    AmountsStart(b, off, n);
    while i <= n
      invariant 1 <= i <= n + 1 && buf.Valid() && |done| == i - 1
      invariant AmountsSoFar(b, off, n, done, buf.offset)
      invariant slots[base + 1..base + i] == AmountSlots(done, off)
      invariant Outside(slots[..], was, base + 1, base + 1 + n)
    {
      ghost var before := slots[base + 1..base + i];
      ghost var r := AmountAt(b, buf.offset);
      if i == n {
        AmountsLast(b, off, n, done, buf.offset);
      } else {
        AmountsStep(b, off, n, done, buf.offset);
      }
      if r.At? {
        AmountsSlot(b, off, n, done, buf.offset);
      }
      ok, slots[base + i] := ParseAmount(buf);
      if ok && i != n {
        ok := CheckConstant(buf, OPCODE_PARAM_END);
      }
      if !ok {
        return;
      }
      assert slots[base + 1..base + i + 1] == before + [slots[base + i]];
      done := done + [r.value];
      i := i + 1;
    }
    AmountsDone(b, off, n, done, buf.offset);
    ok := true;
  }

  lemma AmountsDone(b: seq<byte>, off: nat, n: nat, done: seq<Amount>, at: nat)
    requires AmountsSoFar(b, off, n, done, at) && |done| == n
    ensures AmountsAt(b, off, n) == At(done, at)
  {
  }

  lemma PrependLast<T>(done: seq<T>, x: T, e: nat)
    ensures Prepend(done, At([x], e)) == At(done + [x], e)
  {
  }

  /** Offsets inside an accepted list of keys and amounts. */
  lemma PairsOffsets(t: Target, b: seq<byte>, off: nat, cur: nat)
    requires |b| <= t.maxTx && cur < t.maxParams
    ensures var r := PairsAt(t, b, off, cur);
            r.At? ==>
              && |PrintKeys(r.value.keys)| == 70 * |r.value.keys|
              && PairsCountAt(t, b, off, cur) == At(r.value.count, off + |PrintAmount(r.value.count)| + 3)
              && |r.value.keys| == |r.value.amounts| == AmountValue(r.value.count)
  {
    hide AmountAt, AmountsAt, KeysAt, Occurs, PrintAmount;
    var r := PairsAt(t, b, off, cur);
    if r.At? {
      PairsSound(t, b, off, cur);
      var count := AmountAt(b, off);
      AmountParse(b, off, count.value, count.end);
      KeysLength(r.value.keys);
    }
  }

  /** The opening condition of parse_pk_amount_pairs. */
  method ParsePairsCount(t: Target, buf: Buffer, slots: array<Slot>, cur: nat) returns (ok: bool, n: nat)
    requires buf.Valid() && cur < slots.Length
    modifies buf, slots
    ensures buf.Valid()
    ensures var r := PairsCountAt(t, buf.bytes, old(buf.offset), cur);
            && ok == r.At?
            && (ok ==> buf.offset == r.end && n == AmountValue(r.value)
                       && slots[cur] == AmountSlot(r.value, old(buf.offset)))
    ensures Outside(slots[..], old(slots[..]), cur, cur + 1)
  {
    hide AmountAt, Occurs, AmountValue, Counts, ParamU64, AmountSlot;
    n := 0;
    SlotOfAmount(buf.bytes, buf.offset);
    ok, slots[cur] := ParseAmount(buf);
    if ok {
      ok, n := ConvertParamToUint64Le(buf.bytes, slots[cur]);
    }
    ok := ok && n != 0 && PairsWidth64(n, cur) <= t.maxParams;
    if ok {
      ok := CheckConstant(buf, OPCODE_PARAM_END);
    }
  }

  /** The condition between the two loops. */
  method CheckPairsAgain(buf: Buffer, n: nat) returns (ok: bool)
    requires buf.Valid()
    modifies buf
    ensures buf.Valid()
    ensures var r := PairsAgainAt(buf.bytes, old(buf.offset), n);
            ok == r.At? && (ok ==> buf.offset == r.end)
  {
    hide AmountAt, Occurs;
    ok := CheckAmount(buf, n);
    if ok {
      ok := CheckConstant(buf, OPCODE_PARAM_END);
    }
  }

  /** What follows the keys: the second count and the amounts. */
  method ParsePairsTail(buf: Buffer, slots: array<Slot>, base: nat, n: nat) returns (ok: bool)
    requires buf.Valid() && n > 0 && base + 1 + n <= slots.Length
    modifies buf, slots
    ensures buf.Valid()
    ensures var off := old(buf.offset);
            var r := PairsTailAt(buf.bytes, off, n);
            && ok == r.At?
            && (ok ==> buf.offset == r.end && slots[base + 1..base + 1 + n] ==
                       AmountSlots(r.value.amounts, off + |PrintAmount(r.value.again)| + 3))
    ensures Outside(slots[..], old(slots[..]), base + 1, base + 1 + n)
  {
    hide AmountsAt, PrintAmount, AmountSlots, Outside, AmountAt;
    ghost var c := CountAt(buf.bytes, buf.offset, n);
    if c.At? {
      CountParse(buf.bytes, buf.offset, n, c.value, c.end);
    }
    OutsideSame(slots[..], base + 1, base + 1 + n);
    ok := CheckPairsAgain(buf, n);
    if ok {
      ok := ParseAmounts(buf, slots, base, n);
    }
  }

  lemma OutsideSame(s: seq<Slot>, from: nat, to: nat)
    ensures Outside(s, s, from, to)
  {
  }

  /** The keys, and what follows them. */
  method ParsePairsBody(t: Target, buf: Buffer, slots: array<Slot>, cur: nat, n: nat) returns (ok: bool)
    requires buf.Valid() && |buf.bytes| <= t.maxTx && slots.Length == t.maxParams && RoomForKeys(t, cur)
    requires n > 0 && PairsWidth64(n, cur) <= t.maxParams
    modifies buf, slots
    ensures buf.Valid()
    ensures var off := old(buf.offset);
            var r := PairsBodyAt(buf.bytes, off, n);
            && ok == r.At?
            && (ok ==>
                  && buf.offset == r.end && cur + 1 + 2 * n <= slots.Length
                  && slots[cur + 1..cur + 1 + n] == KeySlots(n, off)
                  && slots[cur + 1 + n..cur + 1 + 2 * n] ==
                     AmountSlots(r.value.tail.amounts, off + 70 * n + |PrintAmount(r.value.tail.again)| + 3))
    ensures Outside(slots[..], old(slots[..]), cur + 1, if ok then cur + 1 + 2 * n else slots.Length)
  {
    hide KeysAt, PrintAmount, KeySlots, AmountSlots, PairsTailAt, Outside, PairsWidth64;
    ghost var s0 := slots[..];
    ok := ParseKeys(t, buf, slots, cur, n);
    if !ok {
      return;
    }
    ghost var s1 := slots[..];
    WidthDoesNotWrap(t, n, cur);
    ok := ParsePairsTail(buf, slots, cur + n, n);
    OutsideTwice(s0, s1, slots[..], cur + 1, cur + 1 + n, cur + n + 1, cur + n + 1 + n);
    OutsideToEnd(slots[..], s0, cur + 1, cur + 1 + n + n);
    KeepSlice(slots[..], s1, cur + n + 1, cur + n + 1 + n, cur + 1, cur + 1 + n);
  }

  method ParsePkAmountPairs(t: Target, buf: Buffer, slots: array<Slot>, cur: nat) returns (ok: bool, next: nat)
    requires buf.Valid() && |buf.bytes| <= t.maxTx && slots.Length == t.maxParams && RoomForKeys(t, cur)
    modifies buf, slots
    ensures buf.Valid() && cur <= next <= slots.Length
    ensures var r := PairsAt(t, buf.bytes, old(buf.offset), cur);
            && ok == r.At?
            && (ok ==> buf.offset == r.end && next == cur + Width(r.value)
                       && slots[cur..next] == PairsSlots(r.value, old(buf.offset)))
    ensures Outside(slots[..], old(slots[..]), cur, if ok then next else slots.Length)
  {
    hide PairsBodyAt, PrintAmount, KeySlots, AmountSlots, PairsSlots, PairsCountAt, AmountSlot, AmountValue,
      Outside, PairsWidth64, Width;
    ghost var b, off, s0 := buf.bytes, buf.offset, slots[..];
    next := cur;
    var n;
    CountBound(t, b, off, cur);
    ok, n := ParsePairsCount(t, buf, slots, cur);
    ghost var s1 := slots[..];
    OutsideToEnd(s1, s0, cur, cur + 1);
    if !ok {
      return;
    }
    ok := ParsePairsBody(t, buf, slots, cur, n);
    ghost var s2 := slots[..];
    OutsideTwice(s0, s1, s2, cur, cur + 1, cur + 1, if ok then cur + 1 + 2 * n else |s0|);
    if ok {
      next := cur + (n * 2 + 1);
      KeepSlot(s2, s1, cur + 1, next, cur);
      PairsAssembled(t, b, off, cur, s2);
    }
  }

  lemma OutsideToEnd(now: seq<Slot>, was: seq<Slot>, from: nat, to: nat)
    requires Outside(now, was, from, to)
    ensures Outside(now, was, from, |was|)
  {
  }

  lemma CountBound(t: Target, b: seq<byte>, off: nat, cur: nat)
    ensures var r := PairsCountAt(t, b, off, cur);
            r.At? ==> var n := AmountValue(r.value); n > 0 && PairsWidth64(n, cur) <= t.maxParams
  {
  }

  /** The three parts of a list of keys and amounts, as they lie in the slots. */
  lemma PairsAssembled(t: Target, b: seq<byte>, off: nat, cur: nat, now: seq<Slot>)
    requires |b| <= t.maxTx && cur < t.maxParams && PairsAt(t, b, off, cur).At?
    requires var c := PairsCountAt(t, b, off, cur);
             var n := AmountValue(c.value);
             var r := PairsBodyAt(b, c.end, n).value;
             && cur + 1 + 2 * n <= |now|
             && now[cur] == AmountSlot(c.value, off)
             && now[cur + 1..cur + 1 + n] == KeySlots(n, c.end)
             && now[cur + 1 + n..cur + 1 + 2 * n] ==
                AmountSlots(r.tail.amounts, c.end + 70 * n + |PrintAmount(r.tail.again)| + 3)
    ensures var v := PairsAt(t, b, off, cur).value;
            && Width(v) == 1 + 2 * AmountValue(PairsCountAt(t, b, off, cur).value)
            && now[cur..cur + Width(v)] == PairsSlots(v, off)
  {
    hide PairsCountAt, PairsBodyAt, KeySlots, AmountSlots, AmountSlot, PrintAmount, PrintKeys, AmountValue;
    PairsOffsets(t, b, off, cur);
    var v := PairsAt(t, b, off, cur).value;
    var n, w := |v.keys|, cur + Width(v);
    assert now[cur..w] == [now[cur]] + (now[cur + 1..cur + 1 + n] + now[cur + 1 + n..w]);
  }

  /** One case of the switch in parse_method_params. */
  method ParseParam(t: Target, vm: Vm, buf: Buffer, slots: array<Slot>, kind: ParamKind, cur: nat)
    returns (ok: bool, next: nat)
    requires buf.Valid() && |buf.bytes| <= t.maxTx && slots.Length == t.maxParams && cur < t.maxParams
    requires kind == PkAmountPairsKind ==> RoomForKeys(t, cur)
    modifies buf, slots
    ensures buf.Valid() && cur <= next <= slots.Length
    ensures var r := ValueAt(t, vm, buf.bytes, old(buf.offset), kind, cur);
            && ok == r.At?
            && (ok ==> buf.offset == r.end && next == cur + Width(r.value)
                       && slots[cur..next] == ValueSlots(vm, r.value, old(buf.offset)))
    ensures Outside(slots[..], old(slots[..]), cur, if ok then next else slots.Length)
  {
    hide AmountAt, TransferAt, PairsAt, PairsSlots, TransferSlots, AmountSlot;
    next := cur;
    match kind
    case AddrKind =>
      ok, slots[cur] := ParseAddress(buf, vm != WasmVm);
      next := cur + 1;
    case AmountKind =>
      ok, slots[cur] := ParseAmount(buf);
      next := cur + 1;
    case Uint128Kind =>
      ok, slots[cur] := ParseUint128(buf);
      next := cur + 1;
    case PubKeyKind =>
      ok, slots[cur] := ParsePk(buf);
      next := cur + 1;
    case OntIdKind =>
      ok := ParseOntId(buf);
    case PkAmountPairsKind =>
      ok, next := ParsePkAmountPairs(t, buf, slots, cur);
    case TransferStateKind =>
      ok, next := ParseTransferState(t, buf, slots, cur);
    case TransferStateListKind =>
      ok := false;
  }

  /** `done` are the arguments parsed so far; they fill `cur` slots and the next one is at `at`. */
  predicate ArgsSoFar(t: Target, vm: Vm, b: seq<byte>, off: nat, kinds: seq<ParamKind>, done: seq<Value>, at: nat,
                      cur: nat) {
    && |done| <= |kinds|
    && at == off + |PrintArgs(vm, done)| && at <= |b|
    && cur == |ArgsSlots(vm, done, off)|
    && (forall k :: 0 <= k < |done| ==> KindOf(done[k]) == kinds[k])
    && ArgsAt(t, vm, b, off, kinds, 0) == Prepend(done, ArgsAt(t, vm, b, at, kinds[|done|..], cur))
  }

  lemma ArgsStart(t: Target, vm: Vm, b: seq<byte>, off: nat, kinds: seq<ParamKind>)
    requires off <= |b|
    ensures ArgsSoFar(t, vm, b, off, kinds, [], off, 0)
  {
    PrependNil(ArgsAt(t, vm, b, off, kinds, 0));
    assert kinds[0..] == kinds;
  }

  lemma {:induction false} ArgsAppend(vm: Vm, vs: seq<Value>, v: Value)
    ensures PrintArgs(vm, vs + [v]) == PrintArgs(vm, vs) + (PrintValue(vm, v) + Separator(vm))
  {
    hide PrintValue, Separator;
    if vs == [] {
      assert [] + [v] == [v] && [v][1..] == [];
    } else {
      ArgsAppend(vm, vs[1..], v);
      assert (vs + [v])[1..] == vs[1..] + [v];
    }
  }

  lemma {:induction false} ArgsSlotsAppend(vm: Vm, vs: seq<Value>, v: Value, off: nat)
    ensures ArgsSlots(vm, vs + [v], off) == ArgsSlots(vm, vs, off) + ValueSlots(vm, v, off + |PrintArgs(vm, vs)|)
  {
    hide PrintValue, ValueSlots, Separator;
    if vs == [] {
      assert [] + [v] == [v] && [v][1..] == [];
    } else {
      ArgsSlotsAppend(vm, vs[1..], v, off + |PrintValue(vm, vs[0])| + |Separator(vm)|);
      assert (vs + [v])[1..] == vs[1..] + [v];
    }
  }

  lemma ArgsStep(t: Target, vm: Vm, b: seq<byte>, off: nat, kinds: seq<ParamKind>, done: seq<Value>, at: nat, cur: nat)
    requires |b| <= t.maxTx && ArgsSoFar(t, vm, b, off, kinds, done, at, cur) && |done| < |kinds|
    ensures var r := ValueAt(t, vm, b, at, kinds[|done|], cur);
            if r.Bad? || !Occurs(b, r.end, Separator(vm)) then ArgsAt(t, vm, b, off, kinds, 0) == Bad
            else
              && ArgsSoFar(t, vm, b, off, kinds, done + [r.value], r.end + |Separator(vm)|, cur + Width(r.value))
              && ArgsSlots(vm, done + [r.value], off) == ArgsSlots(vm, done, off) + ValueSlots(vm, r.value, at)
  {
    hide ValueAt, PrintValue, ValueSlots, Width, Occurs, Prepend, ValueOk, PrintArgs, ArgsSlots, KindOf;
    var r := ValueAt(t, vm, b, at, kinds[|done|], cur);
    if r.At? {
      ValueParse(t, vm, b, at, kinds[|done|], cur, r.value, r.end);
      ArgsAppend(vm, done, r.value);
      ArgsSlotsAppend(vm, done, r.value, off);
      assert kinds[|done|..][1..] == kinds[|done| + 1..];
      PrependCons(done, r.value, ArgsAt(t, vm, b, r.end + |Separator(vm)|, kinds[|done| + 1..], cur + Width(r.value)));
    }
  }

  lemma ArgsFinish(t: Target, vm: Vm, b: seq<byte>, off: nat, kinds: seq<ParamKind>, done: seq<Value>, at: nat,
                   cur: nat)
    requires ArgsSoFar(t, vm, b, off, kinds, done, at, cur) && |done| == |kinds|
    ensures ArgsAt(t, vm, b, off, kinds, 0) == At(done, at) && cur == |ArgsSlots(vm, done, off)|
  {
    PrependNil<Value>(Bad);
  }

  /** Where a list of keys can stand there is room for it. */
  lemma EarlyRoom(t: Target, vm: Vm, b: seq<byte>, off: nat, kinds: seq<ParamKind>, done: seq<Value>, at: nat, cur: nat)
    requires ArgsSoFar(t, vm, b, off, kinds, done, at, cur) && |done| < |kinds|
    requires PairsEarly(kinds) && kinds[|done|] == PkAmountPairsKind
    ensures RoomForKeys(t, cur)
  {
    hide ArgsAt, PrintArgs, Prepend;
    if |done| == 1 {
      assert KindOf(done[0]) == AddrKind;
      assert done[1..] == [];
      assert |ArgsSlots(vm, done, off)| == Width(done[0]) == 1;
    } else {
      assert done == [];
    }
  }

  method ParseMethodParams(t: Target, vm: Vm, buf: Buffer, slots: array<Slot>, params: seq<ParamKind>)
    returns (ok: bool, paramsNum: nat)
    requires buf.Valid() && |buf.bytes| <= t.maxTx && slots.Length == t.maxParams && PairsEarly(params)
    modifies buf, slots
    ensures buf.Valid()
    ensures var off := old(buf.offset);
            var r := ArgsAt(t, vm, buf.bytes, off, params, 0);
            && ok == r.At?
            && (ok ==>
                  && buf.offset == r.end && paramsNum == |params| == |r.value|
                  && var w := |ArgsSlots(vm, r.value, off)|;
                     w <= slots.Length && slots[..w] == ArgsSlots(vm, r.value, off)
                     && Outside(slots[..], old(slots[..]), 0, w))
  {
    hide ArgsSoFar, ArgsAt, ArgsSlots, ValueAt, ValueSlots, Occurs, Width, Outside;
    var cur := 0;
    paramsNum := 0;
    ghost var b, off, done, was := buf.bytes, buf.offset, [], slots[..];
    ArgsStart(t, vm, b, off, params);
    SlotsStart(vm, off, was);
    while paramsNum < |params|
      invariant paramsNum == |done| <= |params| && buf.Valid() && cur <= slots.Length
      invariant ArgsSoFar(t, vm, b, off, params, done, buf.offset, cur)
      invariant slots[..cur] == ArgsSlots(vm, done, off)
      invariant Outside(slots[..], was, 0, cur)
    {
      var kind := params[paramsNum];
      ghost var at, before, from := buf.offset, slots[..], cur;
      ArgsStep(t, vm, b, off, params, done, at, cur);
      if kind == PkAmountPairsKind {
        EarlyRoom(t, vm, b, off, params, done, at, cur);
      }
      paramsNum := paramsNum + 1;
      if cur >= t.maxParams {
        FullSlots(t, vm, b, at, kind, cur);
        return false, paramsNum;
      }
      ok, cur := ParseParam(t, vm, buf, slots, kind, cur);
      if ok && vm == NativeVm {
        ok := CheckConstant(buf, OPCODE_PARAM_END);
      }
      if !ok {
        return;
      }
      SlotsStep(slots[..], before, was, from, cur);
      done := done + [ValueAt(t, vm, b, at, kind, from).value];
    }
    ArgsFinish(t, vm, b, off, params, done, buf.offset, cur);
    ok := true;
  }

  lemma SlotsStart(vm: Vm, off: nat, was: seq<Slot>)
    ensures Outside(was, was, 0, 0) && ArgsSlots(vm, [], off) == was[..0]
  {
  }

  lemma FullSlots(t: Target, vm: Vm, b: seq<byte>, off: nat, kind: ParamKind, cur: nat)
    requires cur >= t.maxParams
    ensures ValueAt(t, vm, b, off, kind, cur) == Bad
  {
  }

  /** Filling from..to keeps what was filled before and what lies behind. */
  lemma SlotsStep(now: seq<Slot>, before: seq<Slot>, was: seq<Slot>, from: nat, to: nat)
    requires Outside(now, before, from, to) && Outside(before, was, 0, from) && from <= to <= |now|
    ensures Outside(now, was, 0, to) && now[..to] == before[..from] + now[from..to]
  {
  }
}
