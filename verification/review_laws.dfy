/** An accepted transaction leaves its slots as the review expects them. */
module ReviewLaws {
  import opened Options
  import opened Bytes
  import opened TxTypes
  import opened Contracts
  import G = Grammar
  import opened ParserSpec
  import opened Acceptance
  import opened Utils
  import opened Deserializer
  import opened StoredFields
  import opened DisplayPlan
  import opened Display
  import opened DisplayLaws
  import opened StakingLaws

  predicate IsPlain(kind: ParamKind) {
    kind == AddrKind || kind == AmountKind || kind == Uint128Kind || kind == PubKeyKind
  }

  predicate Plain(kinds: seq<ParamKind>) {
    forall k :: 0 <= k < |kinds| ==> IsPlain(kinds[k])
  }

  /** Elsewhere than in the native tokens, transfers take three plain parameters. */
  lemma OtherTransfers(addr: seq<byte>, name: seq<byte>)
    requires IsTransfer(name) && !IsToken(addr) && Lookup(addr, name).Some?
    ensures var kinds := Lookup(addr, name).value.kinds; |kinds| == 3 && Plain(kinds)
  {
    ContractFound(addr, 0);
    var c := FindContract(addr, 0).value;
    assert TRANSFER[0] == 0x74 && TRANSFER_V2[0] == 0x74;
    if c.methods == GOVERNANCE_METHODS {
      NoGovernanceTransfer(name);
    } else {
      PlainTransfer(c.methods, name);
    }
  }

  lemma NoGovernanceTransfer(name: seq<byte>)
    requires name != [] && name[0] == 0x74
    ensures FindMethod(GOVERNANCE_METHODS, name, 0) == None
  {
    GovernanceNames();
    MethodFound(GOVERNANCE_METHODS, name, 0);
  }

  lemma GovernanceNames()
    ensures forall j :: 0 <= j < |GOVERNANCE_METHODS| ==>
            GOVERNANCE_METHODS[j].name != [] && GOVERNANCE_METHODS[j].name[0] != 0x74
  {
  }

  lemma PlainTransfer(methods: seq<MethodSig>, name: seq<byte>)
    requires methods == NEOVM_OEP4_METHODS || methods == WASMVM_OEP4_METHODS
    requires IsTransfer(name)
    ensures var r := FindMethod(methods, name, 0); r.Some? ==> |r.value| == 3 && Plain(r.value)
  {
    MethodFound(methods, name, 0);
    assert |TRANSFER_FROM| == 12 && |TRANSFER| == 8 && |TRANSFER_V2| == 10 && |APPROVE| == 7;
  }

  lemma {:induction false} PlainWidth(t: Target, kinds: seq<ParamKind>, args: seq<G.Value>, cur: nat)
    requires Plain(kinds) && G.ArgsOk(t, kinds, args, cur)
    ensures |ArgsContents(args)| == |kinds|
    decreases args
  {
    if args != [] {
      assert IsPlain(kinds[0]);
      PlainWidth(t, kinds[1..], args[1..], cur + G.Width(args[0]));
    }
  }

  lemma TransfersInThrees(t: Target, tx: G.Tx)
    requires G.TxOk(t, tx) && G.VmOf(tx.payload) == NativeVm && IsTransfer(tx.payload.call.name)
    ensures |Contents(tx.payload)| % 3 == 0
  {
    hide G.PrintTx, G.PrintPayload, Lookup, IsToken, IsTransfer, Plain, ArgsContents;
    var call := tx.payload.call;
    match tx.payload
    case TransferList(states, _, _) =>
    case NativeCall(args, _) =>
      OtherTransfers(call.addr, call.name);
      PlainWidth(t, Lookup(call.addr, call.name).value.kinds, args, 0);
    case _ =>
  }

  lemma StakeStored(t: Target, b: seq<byte>, tx: G.Tx, slots: seq<Slot>)
    requires G.TxOk(t, tx) && Hold(b, slots, Contents(tx.payload))
    requires G.VmOf(tx.payload) == NativeVm && IsStaking(tx.payload.call.name)
    ensures |slots| >= 4 && AllIn(b, slots) && ParamU64(b, slots[1]).Some? &&
            |slots| == 2 + 2 * ParamU64(b, slots[1]).value
  {
    hide G.TxOk, Contents, ItemFields, Hold, ParamU64;
    var none: Base58 := (_ => None);
    var info := InfoOf(tx);
    StakeContents(none, info, t, tx);
    FieldsOfItems(none, info, b, slots, Contents(tx.payload));
    assert FieldsOf(none, info, b, slots)[1] == FieldOf(none, info, b, slots[1]);
  }

  lemma {:induction false} ArgsWidth(t: Target, vm: Vm, kinds: seq<ParamKind>, args: seq<G.Value>, cur: nat, off: nat)
    requires G.ArgsOk(t, kinds, args, cur) && cur <= t.maxParams
    ensures |G.ArgsSlots(vm, args, off)| + cur <= t.maxParams
    decreases args
  {
    hide G.PrintValue, G.ValueSlots, G.Counts;
    if args != [] {
      ArgsWidth(t, vm, kinds[1..], args[1..], cur + G.Width(args[0]),
                off + |G.PrintValue(vm, args[0])| + |G.Separator(vm)|);
    }
  }

  /** The stored parameters fit in the slots. */
  lemma SlotsFit(t: Target, tx: G.Tx)
    requires G.TxOk(t, tx)
    ensures |G.TxSlots(t, tx)| <= t.maxParams
  {
    hide G.PrintTx, G.PrintPayload, Lookup, IsToken, IsTransfer, G.ArgsSlots, G.Counts;
    var off, call := G.PayloadStart(t, tx), tx.payload.call;
    var found := Lookup(call.addr, call.name);
    match tx.payload
    case TransferList(_, _, _) =>
    case NativeCall(args, _) => ArgsWidth(t, NativeVm, found.value.kinds, args, 0, off + 3);
    case NeoCall(args, _, _) => ArgsWidth(t, NeoVm, found.value.kinds, args, 0, off);
    case WasmCall(args, _) => ArgsWidth(t, WasmVm, found.value.kinds, args, 0, off + 21 + |G.PrintName(call.name)|);
  }

  lemma TickerLength(addr: seq<byte>)
    ensures |Ticker(addr)| <= 20
  {
  }

  predicate Unused(slots: seq<Slot>) {
    forall i :: 0 <= i < |slots| ==> slots[i].NoSlot?
  }

  /** In a fresh slot array the parser leaves exactly the parameters, as the display needs them. */
  lemma AcceptedIsWellStored(t: Target, b: seq<byte>, now: seq<Slot>, was: seq<Slot>)
    requires Deserialize(t, b).Accepted? && |was| == t.maxParams && Unused(was)
    requires StoredSlots(now, was, G.TxSlots(t, Deserialize(t, b).tx))
    ensures var tx := Deserialize(t, b).tx;
            var k := |G.TxSlots(t, tx)|;
            && k <= t.maxParams && now[..k] == G.TxSlots(t, tx)
            && WellStored(InfoOf(tx), b, now, k)
  {
    hide Deserialize, G.TxSlots, Lookup, IsStaking, IsTransfer, G.TxOk, Contents;
    var tx := Deserialize(t, b).tx;
    AcceptsExactlyThePrinted(t, b, tx);
    AcceptedSlotsHold(t, b);
    SlotsFit(t, tx);
    TickerLength(tx.payload.call.addr);
    var slots := G.TxSlots(t, tx);
    var k := |slots|;
    assert now[..k] == slots;
    forall i | 0 <= i < |now|
      ensures InBytes(b, now[i]) && (now[i].Slot? <==> i < k)
    {
      if i < k {
        assert HoldsItem(b, slots[i], Contents(tx.payload)[i]);
      } else {
        assert now[i] == was[i];
      }
    }
    if G.VmOf(tx.payload) == NativeVm && IsTransfer(tx.payload.call.name) {
      TransfersInThrees(t, tx);
    }
    if G.VmOf(tx.payload) == NativeVm && IsStaking(tx.payload.call.name) {
      StakeStored(t, b, tx, slots);
      assert now[1] == slots[1];
    }
  }
}
