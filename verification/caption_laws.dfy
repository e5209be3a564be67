/**
 Captions say what the parameters are. Whether every caption of a call's plan fits the kind of its
 parameter depends on the contract, the method and the virtual machine; `Faithful` is exactly that.
 Whether the amounts are in the right units is a question of `CompletenessLaws`.
 */
module CaptionLaws {
  import opened Options
  import opened Bytes
  import opened TxTypes
  import opened Contracts
  import G = Grammar
  import opened StoredFields
  import opened DisplayPlan
  import opened Display
  import opened DisplayLaws
  import opened Params

  /** The kind of parameter a caption announces. */
  predicate Fits(l: Label, kind: ParamKind) {
    match l
    case From => kind == AddrKind
    case To => kind == AddrKind
    case Spender => kind == AddrKind
    case StakeAddress => kind == AddrKind
    case PeerPubkey => kind == PubKeyKind
    case Amount => kind == AmountKind || kind == Uint128Kind
    case StakeAmount => kind == AmountKind
    case MaxAuthorize => kind == AmountKind
    case PeerIncentive => kind == AmountKind
    case UserIncentive => kind == AmountKind
    case _ => false
  }

  // ----- the kinds that are stored

  predicate HasLists(kinds: seq<ParamKind>) {
    PkAmountPairsKind in kinds || TransferStateListKind in kinds
  }

  function StoredKinds(kind: ParamKind): seq<ParamKind> {
    if kind == OntIdKind then []
    else if kind == TransferStateKind then [AddrKind, AddrKind, AmountKind]
    else [kind]
  }

  function AllStored(kinds: seq<ParamKind>): seq<ParamKind> {
    if kinds == [] then [] else StoredKinds(kinds[0]) + AllStored(kinds[1..])
  }

  function KindsOf(items: seq<Item>): (r: seq<ParamKind>)
    ensures |r| == |items|
  {
    seq(|items|, i requires 0 <= i < |items| => items[i].kind)
  }

  lemma KindsOfCat(a: seq<Item>, b: seq<Item>)
    ensures KindsOf(a + b) == KindsOf(a) + KindsOf(b)
  {
  }

  /** Arguments of a signature without lists are stored with just these kinds. */
  lemma {:induction false} ArgsKinds(t: Target, kinds: seq<ParamKind>, args: seq<G.Value>, cur: nat)
    requires G.ArgsOk(t, kinds, args, cur) && !HasLists(kinds)
    ensures KindsOf(ArgsContents(args)) == AllStored(kinds)
    decreases args
  {
    hide G.Counts, G.PrintAmount;
    if args != [] {
      ArgsKinds(t, kinds[1..], args[1..], cur + G.Width(args[0]));
      KindsOfCat(ValueContents(args[0]), ArgsContents(args[1..]));
      assert kinds[0] != PkAmountPairsKind;
      assert KindsOf(ValueContents(args[0])) == StoredKinds(kinds[0]);
    }
  }

  // ----- the tables

  /** A plan has an entry for every stored parameter, except that registerCandidate's leaves out the
      last. */
  predicate Paired(vm: Vm, m: MethodSig) {
    var c, e := Configs(vm, m.name), AllStored(m.kinds);
    c.Some? && |e| == |c.value| + (if m.name == REGISTER_CANDIDATE then 1 else 0)
  }

  /** The plan of a method fits its signature: every caption announces the kind stored for it. */
  predicate SigFits(vm: Vm, m: MethodSig) {
    !HasLists(m.kinds) ==>
      && Paired(vm, m)
      && var c, e := Configs(vm, m.name).value, AllStored(m.kinds);
         forall i :: 0 <= i < |c| ==> Fits(c[i].item, e[i])
  }

  /** No text can be made of a prefixed amount in WebAssembly, or of sixteen bare bytes elsewhere. */
  predicate Textless(vm: Vm, kind: ParamKind) {
    (kind == AmountKind && vm == WasmVm) || (kind == Uint128Kind && vm != WasmVm)
  }

  predicate WrongAt(vm: Vm, c: seq<Config>, e: seq<ParamKind>, i: nat) {
    i < |c| && i < |e| && (!Fits(c[i].item, e[i]) || Textless(vm, e[i]))
  }

  /** Some caption announces another kind than is stored, unless there can be no review at all. */
  predicate SigMisfits(vm: Vm, m: MethodSig) {
    !HasLists(m.kinds) ==>
      && Paired(vm, m)
      && exists i :: 0 <= i < |AllStored(m.kinds)| && WrongAt(vm, Configs(vm, m.name).value, AllStored(m.kinds), i)
  }

  /** Names differ in their first letter or their length. */
  lemma NamesDiffer()
    ensures |TRANSFER| == 8 && |TRANSFER_FROM| == 12 && |TRANSFER_V2| == 10 && |TRANSFER_FROM_V2| == 14
    ensures |APPROVE| == 7 && |APPROVE_V2| == 9 && |ADD_INIT_POS| == 10 && |AUTHORIZE_FOR_PEER| == 16
    ensures |REGISTER_CANDIDATE| == 17 && |REDUCE_INIT_POS| == 13 && |QUIT_NODE| == 8 && |WITHDRAW| == 8 &&
            |WITHDRAW_FEE| == 11
    ensures |CHANGE_MAX_AUTH| == 22 && |SET_FEE_PERCENTAGE| == 16 && |UNAUTHORIZE_FOR_PEER| == 18
    ensures TRANSFER[0] == 0x74 && TRANSFER_V2[0] == 0x74 && QUIT_NODE[0] == 0x71 && WITHDRAW[0] == 0x77
    ensures ADD_INIT_POS[0] == 0x61 && AUTHORIZE_FOR_PEER[0] == 0x61 && SET_FEE_PERCENTAGE[0] == 0x73
  {
  }

  predicate AllSimple(kinds: seq<ParamKind>) {
    forall k :: 0 <= k < |kinds| ==> kinds[k] != OntIdKind && kinds[k] != TransferStateKind
  }

  lemma {:induction false} SimpleStored(kinds: seq<ParamKind>)
    requires AllSimple(kinds)
    ensures AllStored(kinds) == kinds
  {
    if kinds != [] {
      SimpleStored(kinds[1..]);
    }
  }

  const FROM_KINDS := [AddrKind, TransferStateKind]
  const REGISTER_KINDS := [PubKeyKind, AddrKind, AmountKind, OntIdKind, AmountKind]

  lemma OddStored()
    ensures AllStored(FROM_KINDS) == [AddrKind, AddrKind, AddrKind, AmountKind]
    ensures AllStored(REGISTER_KINDS) == [PubKeyKind, AddrKind, AmountKind, AmountKind]
  {
    assert FROM_KINDS[1..] == [TransferStateKind];
    assert AllStored([TransferStateKind]) == [AddrKind, AddrKind, AmountKind] + [];
    assert REGISTER_KINDS[1..][1..][1..] == [OntIdKind, AmountKind];
    assert [OntIdKind, AmountKind][1..] == [AmountKind];
    SimpleStored([AmountKind]);
    assert AllStored([OntIdKind, AmountKind]) == [AmountKind];
  }

  /** A signature of simple kinds fits if its kinds fit the plan one by one. */
  lemma SimpleFits(vm: Vm, name: seq<byte>, kinds: seq<ParamKind>, c: seq<Config>)
    requires AllSimple(kinds) && Configs(vm, name) == Some(c) && |c| == |kinds| && name != REGISTER_CANDIDATE
    requires forall i :: 0 <= i < |c| ==> Fits(c[i].item, kinds[i])
    ensures SigFits(vm, MethodSig(name, kinds))
  {
    SimpleStored(kinds);
  }

  /** And misfits if one does not. */
  lemma SimpleMisfits(vm: Vm, name: seq<byte>, kinds: seq<ParamKind>, c: seq<Config>, i: nat)
    requires AllSimple(kinds) && Configs(vm, name) == Some(c) && |c| == |kinds| && name != REGISTER_CANDIDATE
    requires WrongAt(vm, c, kinds, i)
    ensures SigMisfits(vm, MethodSig(name, kinds))
  {
    SimpleStored(kinds);
  }

  const SPENDER_CONFIGS := [Config(Spender, 0), Config(From, 1), Config(To, 3), Config(Amount, 2)]
  const NEO_CONFIGS := [Config(Amount, 1), Config(To, 2), Config(From, 0)]
  const NEO_SPENDER_CONFIGS := [Config(Amount, 2), Config(To, 3), Config(From, 1), Config(Spender, 0)]

  /** The plans of the token methods: three of them depend on the virtual machine, the V2 methods do
      not. */
  lemma TokenPlans(vm: Vm)
    ensures Configs(vm, TRANSFER) == Some(if vm == NeoVm then NEO_CONFIGS else TRANSFER_CONFIGS)
    ensures Configs(vm, APPROVE) == Some(if vm == NeoVm then NEO_CONFIGS else TRANSFER_CONFIGS)
    ensures Configs(vm, TRANSFER_FROM) == Some(if vm == NeoVm then NEO_SPENDER_CONFIGS else SPENDER_CONFIGS)
    ensures Configs(vm, APPROVE_V2) == Some(TRANSFER_CONFIGS)
    ensures Configs(vm, TRANSFER_FROM_V2) == Some(SPENDER_CONFIGS)
    ensures TRANSFER != REGISTER_CANDIDATE && APPROVE != REGISTER_CANDIDATE && TRANSFER_FROM != REGISTER_CANDIDATE
    ensures APPROVE_V2 != REGISTER_CANDIDATE && TRANSFER_FROM_V2 != REGISTER_CANDIDATE
  {
    NamesDiffer();
    hide Ascii;
  }

  const OEP4_KINDS := [AmountKind, AddrKind, AddrKind]
  const OEP4_FROM_KINDS := [AmountKind, AddrKind, AddrKind, AddrKind]
  const WASM_KINDS := [AddrKind, AddrKind, Uint128Kind]
  const WASM_FROM_KINDS := [AddrKind, AddrKind, AddrKind, Uint128Kind]
  const APPROVE_KINDS := [AddrKind, AddrKind, AmountKind]

  /** Methods with a list of transfers are no calls. */
  lemma ListSig(vm: Vm, name: seq<byte>)
    ensures SigFits(vm, MethodSig(name, [TransferStateListKind])) &&
            SigMisfits(vm, MethodSig(name, [TransferStateListKind]))
  {
    assert [TransferStateListKind][0] == TransferStateListKind;
  }

  lemma V2Fits(vm: Vm)
    ensures SigFits(vm, MethodSig(APPROVE_V2, APPROVE_KINDS))
    ensures SigFits(vm, MethodSig(TRANSFER_FROM_V2, FROM_KINDS))
  {
    TokenPlans(vm);
    OddStored();
    hide Configs, Ascii, AllStored;
    SimpleFits(vm, APPROVE_V2, APPROVE_KINDS, TRANSFER_CONFIGS);
  }

  lemma NativeFits(vm: Vm)
    ensures if vm == NativeVm then SigFits(vm, MethodSig(APPROVE, APPROVE_KINDS))
            else SigMisfits(vm, MethodSig(APPROVE, APPROVE_KINDS))
    ensures if vm == NativeVm then SigFits(vm, MethodSig(TRANSFER_FROM, FROM_KINDS))
            else SigMisfits(vm, MethodSig(TRANSFER_FROM, FROM_KINDS))
  {
    TokenPlans(vm);
    OddStored();
    hide Configs, Ascii, AllStored;
    if vm == NativeVm {
      SimpleFits(vm, APPROVE, APPROVE_KINDS, TRANSFER_CONFIGS);
    } else if vm == NeoVm {
      SimpleMisfits(vm, APPROVE, APPROVE_KINDS, NEO_CONFIGS, 0);
      assert WrongAt(vm, NEO_SPENDER_CONFIGS, AllStored(FROM_KINDS), 0);
    } else {
      SimpleMisfits(vm, APPROVE, APPROVE_KINDS, TRANSFER_CONFIGS, 2);
      assert WrongAt(vm, SPENDER_CONFIGS, AllStored(FROM_KINDS), 3);
    }
  }

  predicate SigIf(fits: bool, vm: Vm, m: MethodSig) {
    if fits then SigFits(vm, m) else SigMisfits(vm, m)
  }

  lemma NeoFits(vm: Vm)
    ensures SigIf(vm == NeoVm, vm, MethodSig(TRANSFER, OEP4_KINDS))
    ensures SigIf(vm == NeoVm, vm, MethodSig(APPROVE, OEP4_KINDS))
    ensures SigIf(vm == NeoVm, vm, MethodSig(TRANSFER_FROM, OEP4_FROM_KINDS))
  {
    TokenPlans(vm);
    hide Configs, Ascii, AllStored, SigFits, SigMisfits;
    if vm == NeoVm {
      SimpleFits(vm, TRANSFER, OEP4_KINDS, NEO_CONFIGS);
      SimpleFits(vm, APPROVE, OEP4_KINDS, NEO_CONFIGS);
      SimpleFits(vm, TRANSFER_FROM, OEP4_FROM_KINDS, NEO_SPENDER_CONFIGS);
    } else {
      SimpleMisfits(vm, TRANSFER, OEP4_KINDS, TRANSFER_CONFIGS, 0);
      SimpleMisfits(vm, APPROVE, OEP4_KINDS, TRANSFER_CONFIGS, 0);
      SimpleMisfits(vm, TRANSFER_FROM, OEP4_FROM_KINDS, SPENDER_CONFIGS, 0);
    }
  }

  lemma WasmFits(vm: Vm)
    ensures SigIf(vm == WasmVm, vm, MethodSig(TRANSFER, WASM_KINDS))
    ensures SigIf(vm == WasmVm, vm, MethodSig(APPROVE, WASM_KINDS))
    ensures SigIf(vm == WasmVm, vm, MethodSig(TRANSFER_FROM, WASM_FROM_KINDS))
  {
    TokenPlans(vm);
    hide Configs, Ascii, AllStored, SigFits, SigMisfits;
    if vm == WasmVm {
      SimpleFits(vm, TRANSFER, WASM_KINDS, TRANSFER_CONFIGS);
      SimpleFits(vm, APPROVE, WASM_KINDS, TRANSFER_CONFIGS);
      SimpleFits(vm, TRANSFER_FROM, WASM_FROM_KINDS, SPENDER_CONFIGS);
    } else {
      var c, d := Configs(vm, TRANSFER).value, Configs(vm, TRANSFER_FROM).value;
      SimpleMisfits(vm, TRANSFER, WASM_KINDS, c, 2);
      SimpleMisfits(vm, APPROVE, WASM_KINDS, c, 2);
      SimpleMisfits(vm, TRANSFER_FROM, WASM_FROM_KINDS, d, 3);
    }
  }

  const KEYED := [PubKeyKind, AddrKind, AmountKind]
  const STAKES := [Config(PeerPubkey, 1), Config(StakeAddress, 0), Config(StakeAmount, 2)]

  /** The plans of the governance methods do not depend on the virtual machine. */
  lemma CandidateFits(vm: Vm)
    ensures SigFits(vm, MethodSig(REGISTER_CANDIDATE, REGISTER_KINDS))
    ensures SigFits(vm, MethodSig(QUIT_NODE, [PubKeyKind, AddrKind]))
    ensures SigFits(vm, MethodSig(ADD_INIT_POS, KEYED))
  {
    NamesDiffer();
    OddStored();
    hide Ascii, AllStored;
    assert Configs(vm, REGISTER_CANDIDATE) == Some(STAKES);
    SimpleFits(vm, QUIT_NODE, [PubKeyKind, AddrKind], [Config(PeerPubkey, 1), Config(StakeAddress, 0)]);
    SimpleFits(vm, ADD_INIT_POS, KEYED, STAKES);
  }

  lemma NodeFits(vm: Vm)
    ensures SigFits(vm, MethodSig(REDUCE_INIT_POS, KEYED))
    ensures SigFits(vm, MethodSig(CHANGE_MAX_AUTH, KEYED))
  {
    NamesDiffer();
    hide Ascii, AllStored;
    SimpleFits(vm, REDUCE_INIT_POS, KEYED, [Config(PeerPubkey, 1), Config(StakeAddress, 0), Config(Amount, 2)]);
    SimpleFits(vm, CHANGE_MAX_AUTH, KEYED, [Config(PeerPubkey, 1), Config(StakeAddress, 0), Config(MaxAuthorize, 2)]);
  }

  lemma FeeMethodsFit(vm: Vm)
    ensures SigFits(vm, MethodSig(SET_FEE_PERCENTAGE, [PubKeyKind, AddrKind, AmountKind, AmountKind]))
    ensures SigFits(vm, MethodSig(WITHDRAW_FEE, [AddrKind]))
  {
    NamesDiffer();
    hide Ascii, AllStored;
    SimpleFits(vm, SET_FEE_PERCENTAGE, [PubKeyKind, AddrKind, AmountKind, AmountKind],
      [Config(PeerPubkey, 1), Config(StakeAddress, 0), Config(PeerIncentive, 2), Config(UserIncentive, 3)]);
    SimpleFits(vm, WITHDRAW_FEE, [AddrKind], [Config(StakeAddress, 0)]);
  }

  lemma ListFits(vm: Vm, name: seq<byte>)
    ensures SigFits(vm, MethodSig(name, [AddrKind, PkAmountPairsKind]))
  {
    assert [AddrKind, PkAmountPairsKind][1] == PkAmountPairsKind;
  }

  lemma GovernanceFits(vm: Vm)
    ensures forall j :: 0 <= j < |GOVERNANCE_METHODS| ==> SigFits(vm, GOVERNANCE_METHODS[j])
  {
    CandidateFits(vm);
    NodeFits(vm);
    FeeMethodsFit(vm);
    ListFits(vm, AUTHORIZE_FOR_PEER);
    ListFits(vm, UNAUTHORIZE_FOR_PEER);
    ListFits(vm, WITHDRAW);
    hide SigFits, Ascii;
  }

  // ----- which calls have fitting captions

  /** The virtual machine a registered contract lives in, by its table. */
  predicate LivesIn(addr: seq<byte>, vm: Vm) {
    match FindContract(addr, 0)
    case None => false
    case Some(c) =>
      match vm
      case NativeVm => c.methods == NATIVE_TOKEN_METHODS || c.methods == GOVERNANCE_METHODS
      case NeoVm => c.methods == NEOVM_OEP4_METHODS
      case WasmVm => c.methods == WASMVM_OEP4_METHODS
  }

  /** Calls of a contract in its own virtual machine, of the governance contract, and of the V2
      methods. */
  predicate Faithful(addr: seq<byte>, name: seq<byte>, vm: Vm) {
    LivesIn(addr, vm) || addr == GOV_ADDR || IsV2(name)
  }

  lemma NativeTable(name: seq<byte>, kinds: seq<ParamKind>, vm: Vm)
    requires MethodSig(name, kinds) in NATIVE_TOKEN_METHODS
    ensures SigIf(vm == NativeVm || IsV2(name), vm, MethodSig(name, kinds))
  {
    NativeFits(vm);
    V2Fits(vm);
    ListSig(vm, TRANSFER);
    ListSig(vm, TRANSFER_V2);
    hide SigFits, SigMisfits, Ascii;
    NamesDiffer();
  }

  lemma NeoTable(name: seq<byte>, kinds: seq<ParamKind>, vm: Vm)
    requires MethodSig(name, kinds) in NEOVM_OEP4_METHODS
    ensures SigIf(vm == NeoVm, vm, MethodSig(name, kinds)) && !IsV2(name)
  {
    NeoFits(vm);
    NamesDiffer();
    hide SigIf, Ascii;
  }

  lemma WasmTable(name: seq<byte>, kinds: seq<ParamKind>, vm: Vm)
    requires MethodSig(name, kinds) in WASMVM_OEP4_METHODS
    ensures SigIf(vm == WasmVm, vm, MethodSig(name, kinds)) && !IsV2(name)
  {
    WasmFits(vm);
    NamesDiffer();
    hide SigIf, Ascii;
  }

  /** Where each registered contract lives. */
  lemma Homes(addr: seq<byte>)
    requires FindContract(addr, 0).Some?
    ensures var methods := FindContract(addr, 0).value.methods;
            || (methods == NATIVE_TOKEN_METHODS && addr != GOV_ADDR
                && forall vm :: LivesIn(addr, vm) <==> vm == NativeVm)
            || (methods == NEOVM_OEP4_METHODS && addr != GOV_ADDR && forall vm :: LivesIn(addr, vm) <==> vm == NeoVm)
            || (methods == WASMVM_OEP4_METHODS && addr != GOV_ADDR && forall vm :: LivesIn(addr, vm) <==> vm == WasmVm)
            || (methods == GOVERNANCE_METHODS && addr == GOV_ADDR)
  {
    ContractFound(addr, 0);
    assert NEOVM_OEP4_METHODS[0].kinds[0] == AmountKind && WASMVM_OEP4_METHODS[0].kinds[0] == AddrKind;
    assert |NATIVE_TOKEN_METHODS| == 6 && |NEOVM_OEP4_METHODS| == 3 && |WASMVM_OEP4_METHODS| == 3 &&
      |GOVERNANCE_METHODS| == 10;
    assert WING_ADDR[0] == 0x80 && MBL_ADDR[0] == 0x6d && STONT_ADDR[0] == 0xcd;
    assert ONT_ADDR[19] == 1 && ONG_ADDR[19] == 2 && GOV_ADDR[19] == 7;
    hide Ascii;
  }

  lemma RegisteredFits(addr: seq<byte>, name: seq<byte>, vm: Vm)
    requires Lookup(addr, name).Some?
    ensures SigIf(Faithful(addr, name, vm), vm, MethodSig(name, Lookup(addr, name).value.kinds))
  {
    var methods, kinds := FindContract(addr, 0).value.methods, Lookup(addr, name).value.kinds;
    MethodFound(methods, name, 0);
    Homes(addr);
    hide LivesIn, SigFits, SigMisfits, FindContract, FindMethod;
    if methods == NATIVE_TOKEN_METHODS {
      NativeTable(name, kinds, vm);
    } else if methods == NEOVM_OEP4_METHODS {
      NeoTable(name, kinds, vm);
    } else if methods == WASMVM_OEP4_METHODS {
      WasmTable(name, kinds, vm);
    } else {
      GovernanceFits(vm);
    }
  }

  lemma PosFound(configs: seq<Config>, i: nat)
    requires Permuted(configs) && i < |configs|
    ensures IndexAt(configs, configs[i].pos) == i && configs[i].pos < |configs|
  {
    IndexFound(configs, configs[i].pos, i);
  }

  lemma FirstBlockShows(info: Info, fields: seq<Field>, c: seq<Config>)
    requires Permuted(c) && |c| <= |fields| && Configs(info.vm, info.name) == Some(c) && Plan(info, fields).Some?
    ensures forall i :: 0 <= i < |c| ==>
              && c[i].pos < |Plan(info, fields).value| && fields[i].text.Some?
              && Plan(info, fields).value[c[i].pos] == Shown(c[i].item, fields[i].text.value)
  {
    hide Permuted, IndexAt, Block, Blocks, StakePlan, IsStaking, IsTransfer;
    var rows := Plan(info, fields).value;
    var first := Block(c, fields).value;
    assert first <= rows;
    forall i | 0 <= i < |c|
      ensures c[i].pos < |rows| && fields[i].text.Some? && rows[c[i].pos] == Shown(c[i].item, fields[i].text.value)
    {
      PosFound(c, i);
      BlockEntry(c, fields, c[i].pos);
    }
  }

  lemma TextlessParam(base58: Base58, info: Info, p: Param)
    requires Textless(info.vm, KindOfParam(p))
    ensures ParamShown(base58, info, p) == None
  {
  }

  /** How many rows there are; a foreign transfer goes through the list loop, which finds no more. */
  lemma RowCount(info: Info, fields: seq<Field>, c: seq<Config>)
    requires Configs(info.vm, info.name) == Some(c) && !IsStaking(info.name) && Plan(info, fields).Some?
    requires |fields| == |c| + (if info.name == REGISTER_CANDIDATE then 1 else 0)
    ensures |Plan(info, fields).value| ==
            |c| + (if info.vm == NativeVm && info.name == REGISTER_CANDIDATE then 1 else 0)
  {
    hide Permuted, Block;
    ConfigsPermuted(info.vm, info.name);
    if IsTransfer(info.name) {
      NotStaking(info.name);
      TransferConfigs(info.vm, info.name);
    }
    hide Configs;
  }

  /** What a call without lists stores, and what its plan has entries for. */
  lemma CallStored(t: Target, tx: G.Tx)
    requires G.TxOk(t, tx) && !tx.payload.TransferList? && !IsStaking(tx.payload.call.name)
    ensures var call, vm := tx.payload.call, G.VmOf(tx.payload);
            var kinds := AllStored(Lookup(call.addr, call.name).value.kinds);
            && Lookup(call.addr, call.name).Some? && KindsOf(Contents(tx.payload)) == kinds
            && (forall base58, info :: AllMean(base58, info, Contents(tx.payload), CallParams(tx)))
            && var m := MethodSig(call.name, Lookup(call.addr, call.name).value.kinds);
               !HasLists(m.kinds) && SigIf(Faithful(call.addr, call.name, vm), vm, m)
  {
    hide G.TxOk, Contents, ArgsContents, AllStored, Lookup, IsStaking, G.ArgsOk, SigIf, Faithful, KindsOf, AllMean,
      HasLists;
    var call := tx.payload.call;
    CallArgs(t, tx);
    NoLists(t, tx);
    ArgsKinds(t, Lookup(call.addr, call.name).value.kinds, ArgsOf(tx.payload), 0);
    RegisteredFits(call.addr, call.name, G.VmOf(tx.payload));
    NotInLists(Lookup(call.addr, call.name).value.kinds);
    forall base58, info
      ensures AllMean(base58, info, Contents(tx.payload), CallParams(tx))
    {
      ArgsMean(t, base58, info, Lookup(call.addr, call.name).value.kinds, ArgsOf(tx.payload), 0);
    }
  }

  /** The fields the display works with have the texts of the parameters. */
  lemma FieldTexts(t: Target, base58: Base58, tx: G.Tx)
    requires G.TxOk(t, tx) && !tx.payload.TransferList? && !IsStaking(tx.payload.call.name)
    ensures var info, ps := InfoOf(tx), CallParams(tx);
            var fields := ItemFields(base58, info, Contents(tx.payload));
            && |fields| == |ps|
            && forall i :: 0 <= i < |ps| ==> fields[i].text == ParamShown(base58, info, ps[i])
  {
    hide G.TxOk, Contents, CallParams, AllStored, Lookup, IsStaking, SigIf, Faithful, KindsOf, HasLists, InfoOf,
      ItemField,
      ParamShown;
    CallStored(t, tx);
    var info, items, ps := InfoOf(tx), Contents(tx.payload), CallParams(tx);
    assert AllMean(base58, info, items, ps);
    forall i | 0 <= i < |ps|
      ensures ItemFields(base58, info, items)[i].text == ParamShown(base58, info, ps[i])
    {
      assert Means(base58, info, items[i], ps[i]);
    }
  }

  lemma NotInLists(kinds: seq<ParamKind>)
    requires !HasLists(kinds)
    ensures PkAmountPairsKind !in kinds
  {
  }

  /** The plan of a call. */
  function PlanOf(tx: G.Tx): Option<seq<Config>> {
    Configs(G.VmOf(tx.payload), tx.payload.call.name)
  }

  predicate ShownAt(rows: seq<Shown>, c: Config, text: Option<string>) {
    c.pos < |rows| && text.Some? && rows[c.pos] == Shown(c.item, text.value)
  }

  /** Every entry of the plan is a row with the text of its parameter, as `info` scales it. */
  predicate TextsHold(base58: Base58, info: Info, tx: G.Tx, rows: seq<Shown>) {
    var c, ps := PlanOf(tx), CallParams(tx);
    && c.Some? && |c.value| <= |ps|
    && forall i :: 0 <= i < |c.value| ==> ShownAt(rows, c.value[i], ParamShown(base58, info, ps[i]))
  }

  /** Every caption of the plan announces the kind of its parameter. */
  predicate CaptionsHold(tx: G.Tx) {
    var c, ps := PlanOf(tx), CallParams(tx);
    && c.Some? && |c.value| <= |ps|
    && forall i :: 0 <= i < |c.value| ==> Fits(c.value[i].item, KindOfParam(ps[i]))
  }

  /** A reviewed call without lists has one row for every stored parameter, with its text, and no
      other, except that registerCandidate leaves out its last and, in a native call, adds the fixed
      fee. All captions fit if and only if the call is of a contract in its own virtual machine, of
      the governance contract, or of a V2 method. */
  lemma CaptionsFit(t: Target, base58: Base58, tx: G.Tx)
    requires G.TxOk(t, tx) && !tx.payload.TransferList? && !IsStaking(tx.payload.call.name)
    requires Reviewed(base58, tx).Some?
    ensures var vm, name, rows := G.VmOf(tx.payload), tx.payload.call.name, Reviewed(base58, tx).value;
            var c := PlanOf(tx);
            && c.Some? && |Contents(tx.payload)| == |CallParams(tx)|
            && |CallParams(tx)| == |c.value| + (if name == REGISTER_CANDIDATE then 1 else 0)
            && |rows| == |c.value| + (if vm == NativeVm && name == REGISTER_CANDIDATE then 1 else 0)
            && TextsHold(base58, InfoOf(tx), tx, rows)
            && (CaptionsHold(tx) <==> Faithful(tx.payload.call.addr, name, vm))
  {
    hide Plan, Lookup, Faithful, IsStaking, ItemField, Permuted, G.TxOk, Configs, Contents, AllStored, Fits, HasLists,
      CallParams, ParamShown;
    var call, vm, info := tx.payload.call, G.VmOf(tx.payload), InfoOf(tx);
    CallStored(t, tx);
    ConfigsPermuted(vm, call.name);
    var c, items, ps := PlanOf(tx).value, Contents(tx.payload), CallParams(tx);
    var kinds := AllStored(Lookup(call.addr, call.name).value.kinds);
    var fields := ItemFields(base58, info, items);
    FirstBlockShows(info, fields, c);
    RowCount(info, fields, c);
    assert AllMean(base58, info, items, ps);
    assert forall i :: 0 <= i < |items| ==>
      kinds[i] == KindsOf(items)[i] == KindOfParam(ps[i]) && fields[i].text == ParamShown(base58, info, ps[i]);
    if !Faithful(call.addr, call.name, vm) {
      var i :| 0 <= i < |kinds| && WrongAt(vm, c, kinds, i);
      if Textless(vm, kinds[i]) {
        TextlessParam(base58, info, ps[i]);
      }
      assert !Fits(c[i].item, KindOfParam(ps[i]));
    }
  }

  /** Only transfers and the staking methods take lists. */
  lemma NoLists(t: Target, tx: G.Tx)
    requires G.TxOk(t, tx) && !tx.payload.TransferList? && !IsStaking(tx.payload.call.name)
    ensures var found := Lookup(tx.payload.call.addr, tx.payload.call.name); found.Some? && !HasLists(found.value.kinds)
  {
    hide G.TxOk, IsStaking, Lookup;
    var call := tx.payload.call;
    CallArgs(t, tx);
    NoListArgs(t, Lookup(call.addr, call.name).value.kinds, ArgsOf(tx.payload), 0);
    ListNames(call.addr, call.name);
  }

  /** No argument stands for a list of transfers. */
  lemma {:induction false} NoListArgs(t: Target, kinds: seq<ParamKind>, args: seq<G.Value>, cur: nat)
    requires G.ArgsOk(t, kinds, args, cur)
    ensures TransferStateListKind !in kinds
    decreases args
  {
    hide G.Counts, G.ValueOk;
    if args != [] {
      NoListArgs(t, kinds[1..], args[1..], cur + G.Width(args[0]));
      assert kinds == [kinds[0]] + kinds[1..];
    }
  }

  predicate ListsStake(ms: seq<MethodSig>) {
    forall j :: 0 <= j < |ms| && PkAmountPairsKind in ms[j].kinds ==> IsStaking(ms[j].name)
  }

  lemma TablesListsStake()
    ensures ListsStake(NATIVE_TOKEN_METHODS) && ListsStake(NEOVM_OEP4_METHODS) && ListsStake(WASMVM_OEP4_METHODS)
    ensures ListsStake(GOVERNANCE_METHODS)
  {
  }

  lemma ListNames(addr: seq<byte>, name: seq<byte>)
    requires Lookup(addr, name).Some?
    ensures PkAmountPairsKind in Lookup(addr, name).value.kinds ==> IsStaking(name)
  {
    TablesListsStake();
    hide Ascii;
    ContractFound(addr, 0);
    var methods := FindContract(addr, 0).value.methods;
    MethodFound(methods, name, 0);
    assert ListsStake(methods);
    var j :| 0 <= j < |methods| && methods[j] == MethodSig(name, Lookup(addr, name).value.kinds);
  }
}
