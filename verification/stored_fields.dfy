/** The slots of an accepted transaction point at its parameters, in order. */
module StoredFields {
  import opened Bytes
  import opened TxTypes
  import opened Contracts
  import opened Grammar
  import opened ParserSpec
  import opened GrammarProofs
  import opened Acceptance
  import opened Utils

  /** A kept parameter: its kind and its text. */
  datatype Item = Item(kind: ParamKind, text: seq<byte>)

  function AmountItem(a: Amount): Item {
    Item(AmountKind, PrintAmount(a))
  }

  function TransferContents(s: Transfer): (r: seq<Item>)
    ensures |r| == 3
  {
    [Item(AddrKind, s.from), Item(AddrKind, s.to), AmountItem(s.amount)]
  }

  function TransfersContents(ts: seq<Transfer>): (r: seq<Item>)
    ensures |r| == 3 * |ts|
  {
    if ts == [] then [] else TransferContents(ts[0]) + TransfersContents(ts[1..])
  }

  function AmountsContents(xs: seq<Amount>): (r: seq<Item>)
    ensures |r| == |xs|
  {
    if xs == [] then [] else [AmountItem(xs[0])] + AmountsContents(xs[1..])
  }

  function KeysContents(ks: seq<seq<byte>>): (r: seq<Item>)
    ensures |r| == |ks|
  {
    if ks == [] then [] else [Item(PubKeyKind, ks[0])] + KeysContents(ks[1..])
  }

  function ValueContents(v: Value): (r: seq<Item>)
    ensures |r| == Width(v)
  {
    match v
    case Addr(hash) => [Item(AddrKind, hash)]
    case PubKey(hex) => [Item(PubKeyKind, hex)]
    case Amt(a) => [AmountItem(a)]
    case Uint128(raw) => [Item(Uint128Kind, raw)]
    case OntId(_) => []
    case Pairs(count, keys, _, amounts) => [AmountItem(count)] + (KeysContents(keys) + AmountsContents(amounts))
    case State(s) => TransferContents(s)
  }

  function ArgsContents(vs: seq<Value>): seq<Item> {
    if vs == [] then [] else ValueContents(vs[0]) + ArgsContents(vs[1..])
  }

  /** The parameters of a payload that are kept. */
  function Contents(p: Payload): seq<Item> {
    match p
    case TransferList(states, _, _) => TransfersContents(states)
    case NativeCall(args, _) => ArgsContents(args)
    case NeoCall(args, _, _) => ArgsContents(args)
    case WasmCall(args, _) => ArgsContents(args)
  }

  /** The slot points at the item. */
  predicate HoldsItem(b: seq<byte>, s: Slot, item: Item) {
    s.Slot? && InBytes(b, s) && s.kind == item.kind && SlotBytes(b, s) == item.text
  }

  /** Slot by slot, `slots` point at `items`. */
  predicate Hold(b: seq<byte>, slots: seq<Slot>, items: seq<Item>) {
    |slots| == |items| && forall i :: 0 <= i < |slots| ==> HoldsItem(b, slots[i], items[i])
  }

  lemma HoldCat(b: seq<byte>, s1: seq<Slot>, s2: seq<Slot>, t1: seq<Item>, t2: seq<Item>)
    requires Hold(b, s1, t1) && Hold(b, s2, t2)
    ensures Hold(b, s1 + s2, t1 + t2)
  {
  }

  /** A slot over text that occurs. */
  lemma HoldOne(b: seq<byte>, s: Slot, text: seq<byte>)
    requires s.Slot? && s.len == |text| && Occurs(b, s.start, text)
    ensures Hold(b, [s], [Item(s.kind, text)])
  {
  }

  lemma TransferHeld(b: seq<byte>, off: nat, s: Transfer)
    requires TransferOk(s) && Occurs(b, off, PrintTransfer(s))
    ensures Hold(b, TransferSlots(s, off), TransferContents(s))
  {
    hide Occurs, PrintTransferHead, PrintTransferTail, PrintAmount, Hold;
    OccursCat(b, off, PrintTransferHead(s.from, s.to), PrintTransferTail(s.amount));
    HeadLength(s.from, s.to);
    TransferHeadParse(b, off, s.from, s.to);
    TransferTailParse(b, off + 51, s.amount);
    OccursCat(b, off + 3, [20], s.from);
    OccursCat(b, off + 27, [20], s.to);
    var s1, s2, s3 := Slot(AddrKind, off + 4, 20), Slot(AddrKind, off + 28, 20), AmountSlot(s.amount, off + 51);
    HoldOne(b, s1, s.from);
    HoldOne(b, s2, s.to);
    HoldOne(b, s3, PrintAmount(s.amount));
    var i1, i2, i3 := Item(AddrKind, s.from), Item(AddrKind, s.to), AmountItem(s.amount);
    HoldCat(b, [s2], [s3], [i2], [i3]);
    HoldCat(b, [s1], [s2] + [s3], [i1], [i2] + [i3]);
    assert TransferSlots(s, off) == [s1] + ([s2] + [s3]);
    assert TransferContents(s) == [i1] + ([i2] + [i3]);
  }

  lemma HeadLength(from: seq<byte>, to: seq<byte>)
    requires |from| == 20 && |to| == 20
    ensures |PrintTransferHead(from, to)| == 51
  {
  }

  lemma {:induction false} TransfersHeld(b: seq<byte>, off: nat, ts: seq<Transfer>)
    requires TransfersOk(ts) && Occurs(b, off, PrintTransfers(ts))
    ensures Hold(b, TransfersSlots(ts, off), TransfersContents(ts))
    decreases ts
  {
    hide Occurs, PrintTransfer, TransferSlots, TransferContents, TransferOk;
    if ts != [] {
      OccursCat(b, off, PrintTransfer(ts[0]), PrintTransfers(ts[1..]));
      TransferHeld(b, off, ts[0]);
      TransfersHeld(b, off + |PrintTransfer(ts[0])|, ts[1..]);
      HoldCat(b, TransferSlots(ts[0], off), TransfersSlots(ts[1..], off + |PrintTransfer(ts[0])|),
        TransferContents(ts[0]), TransfersContents(ts[1..]));
    }
  }

  lemma {:induction false} KeysHeld(b: seq<byte>, off: nat, ks: seq<seq<byte>>)
    requires KeysOk(ks) && Occurs(b, off, PrintKeys(ks))
    ensures Hold(b, KeySlots(|ks|, off), KeysContents(ks))
    decreases ks
  {
    hide Occurs, Hold;
    if ks == [] {
      HoldNone(b);
    } else {
      OccursCat(b, off, PrintKey(ks[0]), OPCODE_PARAM_END + PrintKeys(ks[1..]));
      OccursCat(b, off, [66], ks[0]);
      OccursCat(b, off + 67, OPCODE_PARAM_END, PrintKeys(ks[1..]));
      HoldOne(b, Slot(PubKeyKind, off + 1, 66), ks[0]);
      KeysHeld(b, off + 70, ks[1..]);
      HoldCat(b, [Slot(PubKeyKind, off + 1, 66)], KeySlots(|ks| - 1, off + 70), [Item(PubKeyKind, ks[0])],
              KeysContents(ks[1..]));
    }
  }

  lemma HoldNone(b: seq<byte>)
    ensures Hold(b, [], [])
  {
  }

  lemma {:induction false} AmountsHeld(b: seq<byte>, off: nat, xs: seq<Amount>)
    requires Occurs(b, off, PrintAmounts(xs))
    ensures Hold(b, AmountSlots(xs, off), AmountsContents(xs))
    decreases xs
  {
    hide Occurs, Hold, PrintAmount;
    if xs == [] {
      HoldNone(b);
    } else {
      var a, rest := xs[0], xs[1..];
      var m := off + |PrintAmount(a)|;
      if rest != [] {
        OccursCat(b, off, PrintAmount(a), OPCODE_PARAM_END + PrintAmounts(rest));
        OccursCat(b, m, OPCODE_PARAM_END, PrintAmounts(rest));
        AmountsHeld(b, m + 3, rest);
      } else {
        HoldNone(b);
      }
      HoldOne(b, AmountSlot(a, off), PrintAmount(a));
      HoldCat(b, [AmountSlot(a, off)], AmountSlots(rest, m + 3), [AmountItem(a)], AmountsContents(rest));
    }
  }

  lemma PairsHeld(b: seq<byte>, off: nat, v: Value)
    requires v.Pairs? && KeysOk(v.keys) && Occurs(b, off, PrintPairs(v))
    ensures Hold(b, PairsSlots(v, off), ValueContents(v))
  {
    hide Occurs, Hold, PrintAmount, PrintKeys, PrintAmounts, KeySlots, AmountSlots, AmountsContents, KeysContents,
      PrintPairs;
    PairsPartsOccur(b, off, v);
    var keysAt := off + |PrintAmount(v.count)| + 3;
    var amountsAt := keysAt + |PrintKeys(v.keys)| + |PrintAmount(v.again)| + 3;
    HoldOne(b, AmountSlot(v.count, off), PrintAmount(v.count));
    KeysHeld(b, keysAt, v.keys);
    AmountsHeld(b, amountsAt, v.amounts);
    var ks, am := KeySlots(|v.keys|, keysAt), AmountSlots(v.amounts, amountsAt);
    HoldCat(b, ks, am, KeysContents(v.keys), AmountsContents(v.amounts));
    HoldCat(b, [AmountSlot(v.count, off)], ks + am, [AmountItem(v.count)],
            KeysContents(v.keys) + AmountsContents(v.amounts));
  }

  lemma ValueHeld(t: Target, vm: Vm, b: seq<byte>, off: nat, v: Value, cur: nat)
    requires ValueOk(t, v, cur) && Occurs(b, off, PrintValue(vm, v))
    ensures Hold(b, ValueSlots(vm, v, off), ValueContents(v))
  {
    hide Occurs, Hold, PrintAmount, PairsSlots, TransferSlots, PrintPairs, PrintTransfer, TransferContents;
    match v
    case Addr(hash) =>
      if vm == WasmVm {
        HoldOne(b, Slot(AddrKind, off, 20), hash);
      } else {
        OccursCat(b, off, [20], hash);
        HoldOne(b, Slot(AddrKind, off + 1, 20), hash);
      }
    case PubKey(hex) =>
      OccursCat(b, off, [66], hex);
      HoldOne(b, Slot(PubKeyKind, off + 1, 66), hex);
    case Amt(a) => HoldOne(b, AmountSlot(a, off), PrintAmount(a));
    case Uint128(raw) => HoldOne(b, Slot(Uint128Kind, off, 16), raw);
    case OntId(_) => HoldNone(b);
    case Pairs(_, _, _, _) => PairsHeld(b, off, v);
    case State(s) => TransferHeld(b, off, s);
  }

  lemma {:induction false} ArgsHeld(t: Target, vm: Vm, b: seq<byte>, off: nat, kinds: seq<ParamKind>,
                                    vs: seq<Value>, cur: nat)
    requires ArgsOk(t, kinds, vs, cur) && Occurs(b, off, PrintArgs(vm, vs))
    ensures Hold(b, ArgsSlots(vm, vs, off), ArgsContents(vs))
    decreases vs
  {
    hide Occurs, Hold, PrintValue, ValueSlots, ValueContents, ValueOk, Width, KindOf;
    if vs == [] {
      HoldNone(b);
    } else {
      var v, rest := vs[0], vs[1..];
      var m := off + |PrintValue(vm, v)|;
      var next := m + |Separator(vm)|;
      OccursCat(b, off, PrintValue(vm, v), Separator(vm) + PrintArgs(vm, rest));
      OccursCat(b, m, Separator(vm), PrintArgs(vm, rest));
      ValueHeld(t, vm, b, off, v, cur);
      ArgsHeld(t, vm, b, next, kinds[1..], rest, cur + Width(v));
      HoldCat(b, ValueSlots(vm, v, off), ArgsSlots(vm, rest, next), ValueContents(v), ArgsContents(rest));
    }
  }

  lemma PayloadHeld(t: Target, b: seq<byte>, off: nat, p: Payload)
    requires PayloadOk(t, p) && Occurs(b, off, PrintPayload(p))
    ensures Hold(b, PayloadSlots(p, off), Contents(p))
  {
    hide Occurs, Hold, PrintTransfers, PrintArgs, PrintAmount, PrintName, ArgsSlots, TransfersSlots, ArgsContents,
      TransfersContents, PrintTrailer, ArgsOk, Lookup, TransfersOk, Counts, IsToken, IsTransfer;
    match p
    case TransferList(states, count, _) =>
      TrailedPartsOccur(b, off, p);
      OccursCat(b, off, PrintTransfers(states), PrintAmount(count) + OPCODE_PACK);
      TransfersHeld(b, off, states);
    case NativeCall(args, call) =>
      TrailedPartsOccur(b, off, p);
      OccursCat(b, off, OPCODE_ST_BEGIN, PrintArgs(NativeVm, args) + OPCODE_ST_END);
      OccursCat(b, off + 3, PrintArgs(NativeVm, args), OPCODE_ST_END);
      ArgsHeld(t, NativeVm, b, off + 3, Lookup(call.addr, call.name).value.kinds, args, 0);
    case NeoCall(args, count, call) =>
      TrailedPartsOccur(b, off, p);
      OccursCat(b, off, PrintArgs(NeoVm, args), PrintAmount(count) + OPCODE_PACK);
      ArgsHeld(t, NeoVm, b, off, Lookup(call.addr, call.name).value.kinds, args, 0);
    case WasmCall(args, call) =>
      BodyRegistered(t, p);
      WasmPartsOccur(b, off, call.addr, call.name, PrintBody(p));
      ArgsHeld(t, WasmVm, b, off + 21 + |PrintName(call.name)|, Lookup(call.addr, call.name).value.kinds, args, 0);
  }

  /** Every stored slot of an accepted transaction holds the text of its field. */
  lemma AcceptedSlotsHold(t: Target, b: seq<byte>)
    requires Deserialize(t, b).Accepted?
    ensures var tx := Deserialize(t, b).tx;
            && Hold(b, TxSlots(t, tx), Contents(tx.payload))
            && PayloadStart(t, tx) == SizeAt(t, b, 42).end
  {
    hide HeaderAt, SizeAt, SizeMatches, PayloadAt, PayloadSlots, PrintPayload, PrintSize, PayloadOk, HeaderOk,
      SizeOk, Occurs, Contents, Hold;
    var tx := Deserialize(t, b).tx;
    AcceptsExactlyThePrinted(t, b, tx);
    HeaderHasPayer(tx.header);
    TxPartsOccur(t, b, tx);
    var n := |PrintPayload(tx.payload)|;
    SizeParse(t, b, 42, tx.form, n, PayloadStart(t, tx));
    PayloadHeld(t, b, PayloadStart(t, tx), tx.payload);
  }
}
