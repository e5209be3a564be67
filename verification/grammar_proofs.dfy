/**
 Each parameter parser accepts exactly what the grammar prints: it answers `At(v, e)` if and only
 if `v` is well formed, its text occurs at the offset, and `e` is the offset behind that text.
 One lemma per nonterminal, each using those of its parts.
 */
module GrammarProofs {
  import opened Bytes
  import opened TxTypes
  import opened Grammar
  import opened ParserSpec

  lemma AmountParse(b: seq<byte>, off: nat, a: Amount, e: nat)
    ensures AmountAt(b, off) == At(a, e) <==>
            AmountOk(a) && Occurs(b, off, PrintAmount(a)) && e == off + |PrintAmount(a)|
  {
    match a
    case Zero => OccursByte(b, off, 0);
    case Push(n) => OccursByte(b, off, 0x50 + n);
    case Prefixed(raw) =>
      OccursCat(b, off, [|raw| % 256], raw);
      OccursByte(b, off, |raw| % 256);
  }

  lemma CountParse(b: seq<byte>, off: nat, n: nat, a: Amount, e: nat)
    ensures CountAt(b, off, n) == At(a, e) <==>
            Counts(a, n) && Occurs(b, off, PrintAmount(a)) && e == off + |PrintAmount(a)|
  {
    AmountParse(b, off, a, e);
  }

  lemma LenAddrParse(b: seq<byte>, off: nat, hash: seq<byte>)
    ensures LenAddrAt(b, off) && b[off + 1..off + 21] == hash <==> |hash| == 20 && Occurs(b, off, PrintLenAddr(hash))
  {
    OccursCat(b, off, [20], hash);
    OccursByte(b, off, 20);
  }

  lemma KeyParse(b: seq<byte>, off: nat, hex: seq<byte>)
    ensures KeyAt(b, off) && b[off + 1..off + 67] == hex <==> |hex| == 66 && Occurs(b, off, PrintKey(hex))
  {
    OccursCat(b, off, [66], hex);
    OccursByte(b, off, 66);
  }

  /** The fixed part of a transfer, up to its amount. */
  lemma TransferHeadParse(b: seq<byte>, off: nat, from: seq<byte>, to: seq<byte>)
    requires |from| == 20 && |to| == 20
    ensures Occurs(b, off, PrintTransferHead(from, to)) <==>
            && Occurs(b, off, OPCODE_ST_BEGIN) && Occurs(b, off + 3, PrintLenAddr(from))
            && Occurs(b, off + 24, OPCODE_PARAM_END) && Occurs(b, off + 27, PrintLenAddr(to))
            && Occurs(b, off + 48, OPCODE_PARAM_END)
  {
    OccursCat(b, off, OPCODE_ST_BEGIN, PrintLenAddr(from) + (OPCODE_PARAM_END + (PrintLenAddr(to) + OPCODE_PARAM_END)));
    OccursCat(b, off + 3, PrintLenAddr(from), OPCODE_PARAM_END + (PrintLenAddr(to) + OPCODE_PARAM_END));
    OccursCat(b, off + 24, OPCODE_PARAM_END, PrintLenAddr(to) + OPCODE_PARAM_END);
    OccursCat(b, off + 27, PrintLenAddr(to), OPCODE_PARAM_END);
  }

  /** The amount of a transfer and what closes it. */
  lemma TransferTailParse(b: seq<byte>, off: nat, a: Amount)
    ensures Occurs(b, off, PrintTransferTail(a)) <==>
            var m := off + |PrintAmount(a)|;
            Occurs(b, off, PrintAmount(a)) && Occurs(b, m, OPCODE_PARAM_END) && Occurs(b, m + 3, OPCODE_ST_END)
  {
    OccursCat(b, off, PrintAmount(a), OPCODE_PARAM_END + OPCODE_ST_END);
    OccursCat(b, off + |PrintAmount(a)|, OPCODE_PARAM_END, OPCODE_ST_END);
  }

  lemma TransferParse(b: seq<byte>, off: nat, t: Transfer, e: nat)
    ensures TransferAt(b, off) == At(t, e) <==>
            TransferOk(t) && Occurs(b, off, PrintTransfer(t)) && e == off + |PrintTransfer(t)|
  {
    var m := off + 51 + |PrintAmount(t.amount)|;
    AmountParse(b, off + 51, t.amount, m);
    if |t.from| == 20 && |t.to| == 20 {
      OccursCat(b, off, PrintTransferHead(t.from, t.to), PrintTransferTail(t.amount));
      TransferHeadParse(b, off, t.from, t.to);
      TransferTailParse(b, off + 51, t.amount);
      LenAddrParse(b, off + 3, t.from);
      LenAddrParse(b, off + 27, t.to);
    }
    if TransferAt(b, off) == At(t, e) {
      AmountParse(b, off + 51, t.amount, e - 4);
    }
  }

  /** A printed transfer opens with the state opcode and closes with the end-of-state opcode. */
  lemma TransferEnds(t: Transfer)
    ensures |PrintTransfer(t)| > 0 && PrintTransfer(t)[0] == 0x00
    ensures PrintTransfer(t)[|PrintTransfer(t)| - 1] == 0x6c
  {
  }

  lemma {:induction false} TransfersParse(t: Target, b: seq<byte>, off: nat, cur: nat, ts: seq<Transfer>, e: nat)
    requires off <= |b|
    ensures TransfersAt(t, b, off, cur) == At(ts, e) <==>
            && TransfersOk(ts) && (ts != [] ==> cur + 3 * |ts| <= t.maxParams)
            && Occurs(b, off, PrintTransfers(ts)) && e == off + |PrintTransfers(ts)|
            && !(e < |b| && b[e] == 0x00)
    decreases |b| - off
  {
    hide PrintTransfer;
    hide TransferOk;
    hide TransferAt;
    if ts == [] {
      assert b[off..off] == [];
      if off < |b| && b[off] == 0x00 {
        assert TransfersAt(t, b, off, cur) != At(ts, e);
      }
    } else {
      var s := ts[0];
      TransferEnds(s);
      OccursCat(b, off, PrintTransfer(s), PrintTransfers(ts[1..]));
      var m := off + |PrintTransfer(s)|;
      TransferParse(b, off, s, m);
      if Occurs(b, off, PrintTransfer(s)) {
        assert b[off] == b[off..m][0] == 0x00;
        TransfersParse(t, b, m, cur + 3, ts[1..], e);
        assert ts == [s] + ts[1..];
        if TransferOk(s) {
          assert TransferAt(b, off) == At(s, m);
          assert TransfersOk(ts) <==> TransfersOk(ts[1..]);
        }
      }
      if TransfersAt(t, b, off, cur) == At(ts, e) {
        assert TransferAt(b, off).At?;
        assert ts[0] == TransferAt(b, off).value;
        TransferParse(b, off, s, TransferAt(b, off).end);
      }
    }
  }

  lemma {:induction false} KeysParse(b: seq<byte>, off: nat, n: nat, ks: seq<seq<byte>>, e: nat)
    requires off <= |b|
    ensures KeysAt(b, off, n) == At(ks, e) <==>
            |ks| == n && KeysOk(ks) && Occurs(b, off, PrintKeys(ks)) && e == off + |PrintKeys(ks)|
    decreases n
  {
    if n == 0 || ks == [] {
      assert b[off..off] == [];
    } else {
      var rest := ks[1..];
      assert ks == [ks[0]] + rest;
      OccursCat(b, off, PrintKey(ks[0]), OPCODE_PARAM_END + PrintKeys(rest));
      KeyParse(b, off, ks[0]);
      if |ks[0]| == 66 {
        assert KeysOk(ks) <==> KeysOk(rest);
        OccursCat(b, off + 67, OPCODE_PARAM_END, PrintKeys(rest));
        if off + 70 <= |b| {
          KeysParse(b, off + 70, n - 1, rest, e);
        }
      }
    }
  }

  lemma {:induction false} AmountsParse(b: seq<byte>, off: nat, n: nat, xs: seq<Amount>, e: nat)
    requires off <= |b|
    ensures AmountsAt(b, off, n) == At(xs, e) <==>
            |xs| == n && AmountsOk(xs) && Occurs(b, off, PrintAmounts(xs)) && e == off + |PrintAmounts(xs)|
    decreases n
  {
    hide AmountAt, AmountOk, PrintAmount, Occurs;
    if n > 0 && |xs| == n {
      var a, rest := xs[0], xs[1..];
      var m := off + |PrintAmount(a)|;
      assert xs == [a] + rest;
      assert AmountsOk(xs) <==> AmountOk(a) && AmountsOk(rest);
      AmountParse(b, off, a, m);
      if AmountAt(b, off).At? {
        AmountParse(b, off, AmountAt(b, off).value, AmountAt(b, off).end);
      }
      if n > 1 {
        OccursCat(b, off, PrintAmount(a), OPCODE_PARAM_END + PrintAmounts(rest));
        OccursCat(b, m, OPCODE_PARAM_END, PrintAmounts(rest));
        if m + 3 <= |b| {
          AmountsParse(b, m + 3, n - 1, rest, e);
        }
      } else {
        assert xs == [a];
      }
    }
  }

  lemma {:induction false} KeysLength(ks: seq<seq<byte>>)
    requires KeysOk(ks)
    ensures |PrintKeys(ks)| == 70 * |ks|
  {
    if ks != [] {
      KeysLength(ks[1..]);
    }
  }

  /** When as many keys fit in the buffer, the 64-bit slot count cannot have wrapped. */
  lemma WidthDoesNotWrap(t: Target, n: nat, cur: nat)
    requires 70 * n <= t.maxTx && cur < t.maxParams
    ensures PairsWidth64(n, cur) == n * 2 + 1 + cur
  {
  }

  /** The parts of a key list. */
  lemma PairsPartsOccur(b: seq<byte>, off: nat, v: Value)
    requires v.Pairs?
    ensures Occurs(b, off, PrintPairs(v)) <==>
            var e := off + |PrintAmount(v.count)|;
            var e1 := e + 3 + |PrintKeys(v.keys)|;
            var e2 := e1 + |PrintAmount(v.again)|;
            && Occurs(b, off, PrintAmount(v.count)) && Occurs(b, e, OPCODE_PARAM_END)
            && Occurs(b, e + 3, PrintKeys(v.keys)) && Occurs(b, e1, PrintAmount(v.again))
            && Occurs(b, e2, OPCODE_PARAM_END) && Occurs(b, e2 + 3, PrintAmounts(v.amounts))
    ensures |PrintPairs(v)| ==
            |PrintAmount(v.count)| + 3 + |PrintKeys(v.keys)| + |PrintAmount(v.again)| + 3 + |PrintAmounts(v.amounts)|
  {
    hide Occurs;
    hide PrintAmount;
    hide PrintKeys;
    hide PrintAmounts;
    var e := off + |PrintAmount(v.count)|;
    var e1 := e + 3 + |PrintKeys(v.keys)|;
    var e2 := e1 + |PrintAmount(v.again)|;
    var s3 := OPCODE_PARAM_END + PrintAmounts(v.amounts);
    var s2 := PrintAmount(v.again) + s3;
    var s1 := PrintKeys(v.keys) + s2;
    OccursCat(b, off, PrintAmount(v.count), OPCODE_PARAM_END + s1);
    OccursCat(b, e, OPCODE_PARAM_END, s1);
    OccursCat(b, e + 3, PrintKeys(v.keys), s2);
    OccursCat(b, e1, PrintAmount(v.again), s3);
    OccursCat(b, e2, OPCODE_PARAM_END, PrintAmounts(v.amounts));
  }

  /** Completeness of the key-list parser. */
  lemma PairsComplete(t: Target, b: seq<byte>, off: nat, cur: nat, v: Value)
    requires |b| <= t.maxTx && v.Pairs? && ValueOk(t, v, cur) && Occurs(b, off, PrintPairs(v))
    ensures PairsAt(t, b, off, cur) == At(v, off + |PrintPairs(v)|)
  {
    hide Occurs;
    hide PrintAmount;
    hide PrintKeys;
    hide PrintAmounts;
    hide PrintPairs;
    hide AmountAt;
    hide KeysAt;
    hide AmountsAt;
    hide CountAt;
    hide AmountValue;
    hide PairsWidth64;
    hide KeysOk;
    hide AmountsOk;
    PairsPartsOccur(b, off, v);
    var n := |v.keys|;
    var e := off + |PrintAmount(v.count)|;
    var e1 := e + 3 + |PrintKeys(v.keys)|;
    var e2 := e1 + |PrintAmount(v.again)|;
    AmountParse(b, off, v.count, e);
    KeysLength(v.keys);
    WidthDoesNotWrap(t, n, cur);
    KeysParse(b, e + 3, n, v.keys, e1);
    CountParse(b, e1, n, v.again, e2);
    AmountsParse(b, e2 + 3, n, v.amounts, e2 + 3 + |PrintAmounts(v.amounts)|);
  }

  /** Soundness: what is accepted fits the slots even though the test wraps at 64 bits. */
  lemma PairsSound(t: Target, b: seq<byte>, off: nat, cur: nat)
    requires |b| <= t.maxTx && cur < t.maxParams && PairsAt(t, b, off, cur).At?
    ensures var v := PairsAt(t, b, off, cur).value;
            ValueOk(t, v, cur) && Occurs(b, off, PrintPairs(v)) && PairsAt(t, b, off, cur).end == off + |PrintPairs(v)|
  {
    hide Occurs;
    hide PrintAmount;
    hide PrintKeys;
    hide PrintAmounts;
    hide PrintPairs;
    hide AmountAt;
    hide KeysAt;
    hide AmountsAt;
    hide CountAt;
    hide AmountValue;
    hide PairsWidth64;
    hide KeysOk;
    hide AmountsOk;
    var v := PairsAt(t, b, off, cur).value;
    var n := AmountValue(v.count);
    var e := AmountAt(b, off).end;
    AmountParse(b, off, v.count, e);
    var e1 := KeysAt(b, e + 3, n).end;
    KeysParse(b, e + 3, n, v.keys, e1);
    WidthDoesNotWrap(t, n, cur);
    var e2 := CountAt(b, e1, n).end;
    CountParse(b, e1, n, v.again, e2);
    AmountsParse(b, e2 + 3, n, v.amounts, AmountsAt(b, e2 + 3, n).end);
    PairsPartsOccur(b, off, v);
  }

  lemma PairsParse(t: Target, b: seq<byte>, off: nat, cur: nat, v: Value, e: nat)
    requires |b| <= t.maxTx && cur < t.maxParams && v.Pairs?
    ensures PairsAt(t, b, off, cur) == At(v, e) <==>
            ValueOk(t, v, cur) && Occurs(b, off, PrintPairs(v)) && e == off + |PrintPairs(v)|
  {
    if PairsAt(t, b, off, cur).At? {
      PairsSound(t, b, off, cur);
    }
    if ValueOk(t, v, cur) && Occurs(b, off, PrintPairs(v)) {
      PairsComplete(t, b, off, cur, v);
    }
  }

  lemma OntIdParse(b: seq<byte>, off: nat, id: seq<byte>)
    requires 1 <= |id| < 256
    ensures Occurs(b, off, [|id| % 256] + id) <==>
            off < |b| && b[off] == |id| && off + 1 + |id| <= |b| && b[off + 1..off + 1 + |id|] == id
  {
    OccursCat(b, off, [|id| % 256], id);
    OccursByte(b, off, |id| % 256);
  }

  lemma ValueParse(t: Target, vm: Vm, b: seq<byte>, off: nat, kind: ParamKind, cur: nat, v: Value, e: nat)
    requires |b| <= t.maxTx
    ensures ValueAt(t, vm, b, off, kind, cur) == At(v, e) <==>
            && KindOf(v) == kind && ValueOk(t, v, cur)
            && Occurs(b, off, PrintValue(vm, v)) && e == off + |PrintValue(vm, v)|
  {
    hide PrintPairs, PairsAt, AmountAt, TransferAt, PrintTransfer, PrintAmount, Counts, Occurs;
    if cur < t.maxParams && KindOf(v) == kind {
      match v
      case Addr(hash) =>
        LenAddrParse(b, off, hash);
        if off + |hash| <= |b| {
          OccursIs(b, off, hash);
        }
      case PubKey(hex) => KeyParse(b, off, hex);
      case Amt(a) => AmountParse(b, off, a, e);
      case Uint128(raw) =>
        if off + |raw| <= |b| {
          OccursIs(b, off, raw);
        }
      case OntId(id) =>
        if 1 <= |id| < 256 {
          OntIdParse(b, off, id);
        }
      case Pairs(_, _, _, _) => PairsParse(t, b, off, cur, v, e);
      case State(s) => TransferParse(b, off, s, e);
    }
  }

  lemma {:induction false} ArgsParse(t: Target, vm: Vm, b: seq<byte>, off: nat, kinds: seq<ParamKind>, cur: nat,
                                     vs: seq<Value>, e: nat)
    requires off <= |b| <= t.maxTx
    ensures ArgsAt(t, vm, b, off, kinds, cur) == At(vs, e) <==>
            ArgsOk(t, kinds, vs, cur) && Occurs(b, off, PrintArgs(vm, vs)) && e == off + |PrintArgs(vm, vs)|
    decreases kinds
  {
    hide Occurs;
    hide PrintValue;
    hide ValueAt;
    hide ValueOk;
    hide KindOf;
    hide Width;
    if kinds == [] || vs == [] {
      assert b[off..off] == [];
    } else {
      var v, rest, sep := vs[0], vs[1..], Separator(vm);
      var m := off + |PrintValue(vm, v)|;
      assert vs == [v] + rest;
      ValueParse(t, vm, b, off, kinds[0], cur, v, m);
      var r := ValueAt(t, vm, b, off, kinds[0], cur);
      if r.At? {
        ValueParse(t, vm, b, off, kinds[0], cur, r.value, r.end);
      }
      OccursCat(b, off, PrintValue(vm, v), sep + PrintArgs(vm, rest));
      OccursCat(b, m, sep, PrintArgs(vm, rest));
      if m + |sep| <= |b| {
        ArgsParse(t, vm, b, m + |sep|, kinds[1..], cur + Width(v), rest, e);
      }
    }
  }
}
