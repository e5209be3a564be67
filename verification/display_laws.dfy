/**
 What the user sees, in terms of the accepted transaction itself: every parsed transfer is shown
 once and in order, keys are paired with their amounts, and texts denote the parsed values.
 */
module DisplayLaws {
  import opened Options
  import opened Bytes
  import opened TxTypes
  import opened Contracts
  import G = Grammar
  import opened ParserSpec
  import opened Decimal
  import opened Utils
  import opened StoredFields
  import opened DisplayPlan
  import opened Display

  /** The call of a transaction, as far as the texts depend on it. */
  function InfoOf(tx: G.Tx): Info {
    var call := tx.payload.call;
    var vm := G.VmOf(tx.payload);
    Info(vm, call.name, Ticker(call.addr), Decimals(vm, call.addr, call.name))
  }

  /** The arguments of a call; a list of transfers is no call. */
  function ArgsOf(p: G.Payload): seq<G.Value> {
    match p
    case TransferList(_, _, _) => []
    case NativeCall(args, _) => args
    case NeoCall(args, _, _) => args
    case WasmCall(args, _) => args
  }

  /** What the tables say about the arguments of a well-formed call, and that just they are stored. */
  lemma CallArgs(t: Target, tx: G.Tx)
    requires G.TxOk(t, tx) && !tx.payload.TransferList?
    ensures var call := tx.payload.call;
            var found := Lookup(call.addr, call.name);
            found.Some? && G.ArgsOk(t, found.value.kinds, ArgsOf(tx.payload), 0)
    ensures Contents(tx.payload) == ArgsContents(ArgsOf(tx.payload))
  {
    hide G.PrintTx, G.PrintPayload, G.SizeOk, G.ArgsOk, Lookup, IsToken, IsTransfer, ArgsContents;
  }

  // ----- fields from items

  /** The text of an amount; there is none for prefixed amounts in WebAssembly calls. */
  function AmountShown(info: Info, a: G.Amount): Option<string> {
    if info.vm == WasmVm || info.decimals > 39 then None
    else Some(AmountText(G.AmountValue(a), info.decimals) + Suffix(info))
  }

  function AmountField(info: Info, a: G.Amount): Field {
    Field(AmountShown(info, a), if a.Prefixed? && |a.raw| > 8 then None else Some(G.AmountValue(a)))
  }

  function KeyField(hex: seq<byte>): Field {
    Field(Some(AsChars(hex)), None)
  }

  function AddrField(base58: Base58, hash: seq<byte>): Field {
    Field(base58(hash), None)
  }

  /** The field of an item, as if its text stood alone. */
  function ItemField(base58: Base58, info: Info, item: Item): Field {
    FieldOf(base58, info, item.text, Slot(item.kind, 0, |item.text|))
  }

  function ItemFields(base58: Base58, info: Info, items: seq<Item>): (r: seq<Field>)
    ensures |r| == |items|
  {
    seq(|items|, i requires 0 <= i < |items| => ItemField(base58, info, items[i]))
  }

  /** Fields only depend on what the slots hold. */
  lemma FieldsOfItems(base58: Base58, info: Info, b: seq<byte>, slots: seq<Slot>, items: seq<Item>)
    requires Hold(b, slots, items)
    ensures AllIn(b, slots) && FieldsOf(base58, info, b, slots) == ItemFields(base58, info, items)
  {
    forall i | 0 <= i < |slots|
      ensures InBytes(b, slots[i]) && FieldOf(base58, info, b, slots[i]) == ItemField(base58, info, items[i])
    {
      assert HoldsItem(b, slots[i], items[i]);
      FieldOfItem(base58, info, b, slots[i], items[i]);
    }
  }

  lemma FieldOfItem(base58: Base58, info: Info, b: seq<byte>, s: Slot, item: Item)
    requires HoldsItem(b, s, item)
    ensures FieldOf(base58, info, b, s) == ItemField(base58, info, item)
  {
    hide LeValue, AmountText;
    var t := Slot(item.kind, 0, |item.text|);
    assert SlotBytes(item.text, t) == item.text == SlotBytes(b, s);
  }

  /** The parameters shown when a transaction is reviewed, as a function of its syntax tree. */
  function Reviewed(base58: Base58, tx: G.Tx): Option<seq<Shown>> {
    Plan(InfoOf(tx), ItemFields(base58, InfoOf(tx), Contents(tx.payload)))
  }

  /** The plan made from the stored slots is the plan of the transaction itself. */
  lemma PlanOfSlots(t: Target, base58: Base58, b: seq<byte>)
    requires Deserialize(t, b).Accepted?
    ensures var tx := Deserialize(t, b).tx;
            && AllIn(b, G.TxSlots(t, tx))
            && Plan(InfoOf(tx), FieldsOf(base58, InfoOf(tx), b, G.TxSlots(t, tx))) == Reviewed(base58, tx)
  {
    hide Deserialize, G.TxSlots, Plan, ItemFields, FieldsOf, Contents, Hold;
    var tx := Deserialize(t, b).tx;
    AcceptedSlotsHold(t, b);
    FieldsOfItems(base58, InfoOf(tx), b, G.TxSlots(t, tx), Contents(tx.payload));
  }

  lemma AmountItemField(base58: Base58, info: Info, a: G.Amount)
    requires G.AmountOk(a)
    ensures ItemField(base58, info, AmountItem(a)) == AmountField(info, a)
  {
    var text := G.PrintAmount(a);
    OccursWhole(text, text);
    AmountDecodes(text, 0, a);
    hide G.PrintAmount, G.AmountValue, ParamU128, ParamU64, AmountText;
    if info.vm == WasmVm {
      NoPrefixNoAmount(text, G.AmountSlot(a, 0));
    }
  }

  lemma NoPrefixNoAmount(b: seq<byte>, s: Slot)
    requires InBytes(b, s) && s.Slot? && s.kind == AmountKind
    ensures ParamU128(b, s, false) == None
  {
  }

  lemma AddrItemField(base58: Base58, info: Info, hash: seq<byte>)
    ensures ItemField(base58, info, Item(AddrKind, hash)) == AddrField(base58, hash)
  {
    assert SlotBytes(hash, Slot(AddrKind, 0, |hash|)) == hash;
  }

  lemma KeyItemField(base58: Base58, info: Info, hex: seq<byte>)
    requires |hex| == 66
    ensures ItemField(base58, info, Item(PubKeyKind, hex)) == KeyField(hex)
  {
    assert SlotBytes(hex, Slot(PubKeyKind, 0, 66)) == hex;
  }

  lemma ItemFieldsCat(base58: Base58, info: Info, a: seq<Item>, b: seq<Item>)
    ensures ItemFields(base58, info, a + b) == ItemFields(base58, info, a) + ItemFields(base58, info, b)
  {
    hide ItemField;
  }

  // ----- transfers

  /** The three rows of one transfer. */
  function TransferRows(base58: Base58, info: Info, s: G.Transfer): Option<seq<Shown>> {
    var from, to, amount := base58(s.from), base58(s.to), AmountShown(info, s.amount);
    if from.None? || to.None? || amount.None? then None
    else Some([Shown(From, from.value), Shown(Amount, amount.value), Shown(To, to.value)])
  }

  function AllTransferRows(base58: Base58, info: Info, ts: seq<G.Transfer>): Option<seq<Shown>> {
    if ts == [] then Some([])
    else Append(TransferRows(base58, info, ts[0]), AllTransferRows(base58, info, ts[1..]))
  }

  const TRANSFER_CONFIGS: seq<Config> := [Config(From, 0), Config(To, 2), Config(Amount, 1)]

  lemma TransferBlock(base58: Base58, info: Info, s: G.Transfer)
    requires G.TransferOk(s)
    ensures Permuted(TRANSFER_CONFIGS)
    ensures Block(TRANSFER_CONFIGS, ItemFields(base58, info, TransferContents(s))) == TransferRows(base58, info, s)
  {
    PermutedIf(TRANSFER_CONFIGS);
    AddrItemField(base58, info, s.from);
    AddrItemField(base58, info, s.to);
    AmountItemField(base58, info, s.amount);
    var fields := ItemFields(base58, info, TransferContents(s));
    hide ItemField, AmountShown, Permuted;
    assert fields[0].text == base58(s.from) && fields[1].text == base58(s.to) &&
      fields[2].text == AmountShown(info, s.amount);
    TransferBlockOf(fields);
  }

  /** The block of a transfer: sender, amount, receiver. */
  lemma TransferBlockOf(fields: seq<Field>)
    requires |fields| == 3 && Permuted(TRANSFER_CONFIGS)
    ensures var r := Block(TRANSFER_CONFIGS, fields);
            if fields[0].text.None? || fields[1].text.None? || fields[2].text.None? then r == None
            else
              r == Some([Shown(From, fields[0].text.value), Shown(Amount, fields[2].text.value),
                         Shown(To, fields[1].text.value)])
  {
    TransferPositions();
    hide IndexAt, Permuted, Block;
    var c := TRANSFER_CONFIGS;
    BlockNone(c, fields);
    if Block(c, fields).Some? {
      BlockEntry(c, fields, 0);
      BlockEntry(c, fields, 1);
      BlockEntry(c, fields, 2);
      assert Block(c, fields).value ==
        [Shown(From, fields[0].text.value), Shown(Amount, fields[2].text.value), Shown(To, fields[1].text.value)];
    }
  }

  lemma TransferPositions()
    ensures IndexAt(TRANSFER_CONFIGS, 0) == 0
    ensures IndexAt(TRANSFER_CONFIGS, 1) == 2
    ensures IndexAt(TRANSFER_CONFIGS, 2) == 1
  {
    assert TRANSFER_CONFIGS[1..][1..] == TRANSFER_CONFIGS[2..];
  }

  /** Position `p` of a block shows the parameter configured for it. */
  lemma BlockEntry(c: seq<Config>, fields: seq<Field>, p: nat)
    requires Permuted(c) && p < |c| && Block(c, fields).Some?
    ensures var i := IndexAt(c, p);
            && i < |c| <= |fields| && fields[i].text.Some?
            && Block(c, fields).value[p] == Shown(c[i].item, fields[i].text.value)
  {
  }

  lemma BlockNone(c: seq<Config>, fields: seq<Field>)
    requires Permuted(c) && |c| <= |fields|
    ensures Block(c, fields).None? <==> exists i :: 0 <= i < |c| && fields[i].text.None?
  {
  }

  lemma {:induction false} TransferBlocks(base58: Base58, info: Info, ts: seq<G.Transfer>)
    requires G.TransfersOk(ts) && Permuted(TRANSFER_CONFIGS)
    ensures Blocks(TRANSFER_CONFIGS, ItemFields(base58, info, TransfersContents(ts))) ==
            AllTransferRows(base58, info, ts)
    decreases ts
  {
    hide Block, TransferRows, ItemField, TransferContents, Permuted;
    if ts != [] {
      var head, tail := TransferContents(ts[0]), TransfersContents(ts[1..]);
      var fields := ItemFields(base58, info, head + tail);
      ItemFieldsCat(base58, info, head, tail);
      assert fields[..3] == ItemFields(base58, info, head) && fields[3..] == ItemFields(base58, info, tail);
      assert G.TransferOk(ts[0]);
      TransferBlock(base58, info, ts[0]);
      TransferBlocks(base58, info, ts[1..]);
    }
  }

  /** A native transfer list of n >= 1 transfers shows exactly 3 * n rows, each transfer once and in
      order; with no transfer there is no review. */
  lemma TransfersShown(t: Target, base58: Base58, tx: G.Tx)
    requires G.TxOk(t, tx) && tx.payload.TransferList?
    ensures var states := tx.payload.states;
            var shown := Reviewed(base58, tx);
            && shown == (if states == [] then None else AllTransferRows(base58, InfoOf(tx), states))
            && (shown.Some? ==> |shown.value| == 3 * |states|)
  {
    hide Block, Blocks, ItemField, FieldText, Permuted, TransferRows, G.PrintTx, G.PrintPayload, G.SizeOk;
    var info, states := InfoOf(tx), tx.payload.states;
    var fields := ItemFields(base58, info, TransfersContents(states));
    TransferPlan(info, fields);
    RowsLength(base58, info, states);
    if states != [] {
      TransferBlocks(base58, info, states);
      BlocksStep(TRANSFER_CONFIGS, fields);
    }
  }

  lemma RowsLength(base58: Base58, info: Info, ts: seq<G.Transfer>)
    ensures var r := AllTransferRows(base58, info, ts); r.Some? ==> |r.value| == 3 * |ts|
  {
  }

  /** The plan of a native transfer list is its blocks. */
  lemma TransferPlan(info: Info, fields: seq<Field>)
    requires info.vm == NativeVm && IsTransfer(info.name)
    ensures Permuted(TRANSFER_CONFIGS)
    ensures Plan(info, fields) ==
            if |fields| < 3 then None
            else Append(Block(TRANSFER_CONFIGS, fields[..3]), Blocks(TRANSFER_CONFIGS, fields[3..]))
  {
    PermutedIf(TRANSFER_CONFIGS);
    assert Configs(info.vm, info.name) == Some(TRANSFER_CONFIGS);
    NotStaking(info.name);
    hide Configs, Block, Blocks, Permuted, StakePlan, IsTransfer, IsStaking;
    if |fields| >= 3 {
      FirstThree(fields);
    } else {
      BlockShort(fields);
    }
  }

  lemma BlockShort(fields: seq<Field>)
    requires Permuted(TRANSFER_CONFIGS) && |fields| < 3
    ensures Block(TRANSFER_CONFIGS, fields) == None
  {
  }

  lemma FirstThree(fields: seq<Field>)
    requires Permuted(TRANSFER_CONFIGS) && |fields| >= 3
    ensures Block(TRANSFER_CONFIGS, fields) == Block(TRANSFER_CONFIGS, fields[..3])
  {
    hide Block;
    BlockPrefix(TRANSFER_CONFIGS, fields, fields[..3]);
  }

  lemma NotStaking(name: seq<byte>)
    requires IsTransfer(name)
    ensures !IsStaking(name) && name != REGISTER_CANDIDATE
  {
    assert AUTHORIZE_FOR_PEER[0] == 0x61 && UNAUTHORIZE_FOR_PEER[0] == 0x75 && WITHDRAW[0] == 0x77;
    assert TRANSFER[0] == 0x74 && TRANSFER_V2[0] == 0x74 && REGISTER_CANDIDATE[0] == 0x72;
  }
}
