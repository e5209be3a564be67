/**
 The review of every method in its contract's own virtual machine, row by row, written out from the
 call's arguments: captions, order, units and decimals stand here as the user reads them.
 */
module MethodRows {
  import opened Options
  import opened Bytes
  import opened TxTypes
  import opened Contracts
  import G = Grammar
  import opened Decimal
  import opened StoredFields
  import opened DisplayPlan
  import opened DisplayLaws
  import opened Params
  import opened CaptionLaws

  /** A row before it is known whether its text can be made. */
  datatype Row = Row(caption: Label, text: Option<string>)

  function Written(rows: seq<Row>): (r: Option<seq<Shown>>)
    ensures r.Some? ==> |r.value| == |rows|
  {
    if exists i :: 0 <= i < |rows| && rows[i].text.None? then None
    else Some(seq(|rows|, i requires 0 <= i < |rows| => Shown(rows[i].caption, rows[i].text.value)))
  }

  function AddressOf(base58: Base58, v: G.Value): Option<string> {
    if v.Addr? then base58(v.hash) else None
  }

  function KeyOf(v: G.Value): Option<string> {
    if v.PubKey? then Some(AsChars(v.hex)) else None
  }

  /** A number in units of 10^d, with its unit behind it. */
  function NumberOf(v: G.Value, d: nat, unit: string): Option<string> {
    match v
    case Amt(a) => Some(AmountText(G.AmountValue(a), d) + unit)
    case Uint128(raw) => Some(AmountText(LeValue(raw), d) + unit)
    case _ => None
  }

  // ----- the rows of each method

  /** ONT and ONG. */
  function TokenRows(base58: Base58, name: seq<byte>, args: seq<G.Value>, d: nat, unit: string): Option<seq<Shown>> {
    if (name == Ascii("approve") || name == Ascii("approveV2")) && |args| == 3 then
      Written([Row(From, AddressOf(base58, args[0])), Row(Amount, NumberOf(args[2], d, unit)),
               Row(To, AddressOf(base58, args[1]))])
    else if (name == Ascii("transferFrom") || name == Ascii("transferFromV2")) && |args| == 2 && args[1].State? then
      var s := args[1].transfer;
      Written([Row(Spender, AddressOf(base58, args[0])), Row(From, base58(s.from)),
               Row(Amount, NumberOf(G.Amt(s.amount), d, unit)), Row(To, base58(s.to))])
    else None
  }

  /** NeoVM tokens, whose arguments come in the opposite order. */
  function NeoRows(base58: Base58, name: seq<byte>, args: seq<G.Value>, d: nat, unit: string): Option<seq<Shown>> {
    if (name == Ascii("transfer") || name == Ascii("approve")) && |args| == 3 then
      Written([Row(From, AddressOf(base58, args[2])), Row(Amount, NumberOf(args[0], d, unit)),
               Row(To, AddressOf(base58, args[1]))])
    else if name == Ascii("transferFrom") && |args| == 4 then
      Written([Row(Spender, AddressOf(base58, args[3])), Row(From, AddressOf(base58, args[2])),
               Row(Amount, NumberOf(args[0], d, unit)), Row(To, AddressOf(base58, args[1]))])
    else None
  }

  /** WebAssembly tokens. */
  function WasmRows(base58: Base58, name: seq<byte>, args: seq<G.Value>, d: nat, unit: string): Option<seq<Shown>> {
    if (name == Ascii("transfer") || name == Ascii("approve")) && |args| == 3 then
      Written([Row(From, AddressOf(base58, args[0])), Row(Amount, NumberOf(args[2], d, unit)),
               Row(To, AddressOf(base58, args[1]))])
    else if name == Ascii("transferFrom") && |args| == 4 then
      Written([Row(Spender, AddressOf(base58, args[0])), Row(From, AddressOf(base58, args[1])),
               Row(Amount, NumberOf(args[3], d, unit)), Row(To, AddressOf(base58, args[2]))])
    else None
  }

  /** The governance contract, apart from the methods with a list of keys. */
  function GovernanceRows(base58: Base58, name: seq<byte>, args: seq<G.Value>): Option<seq<Shown>> {
    if name == Ascii("withdrawFee") && |args| == 1 then Written([Row(StakeAddress, AddressOf(base58, args[0]))])
    else if |args| < 2 then None
    else
      var address, key := Row(StakeAddress, AddressOf(base58, args[1])), Row(PeerPubkey, KeyOf(args[0]));
      if name == Ascii("quitNode") then Written([address, key])
      else if |args| < 3 then None
      else if name == Ascii("registerCandidate") then
        Written([address, key, Row(StakeAmount, NumberOf(args[2], 0, " ONT")), Row(StakeFee, Some("500 ONG"))])
      else if name == Ascii("addInitPos") then Written([address, key, Row(StakeAmount, NumberOf(args[2], 0, " ONT"))])
      else if name == Ascii("reduceInitPos") then Written([address, key, Row(Amount, NumberOf(args[2], 0, " ONT"))])
      else if name == Ascii("changeMaxAuthorization") then
        Written([address, key, Row(MaxAuthorize, NumberOf(args[2], 0, " ONT"))])
      else if name == Ascii("setFeePercentage") && |args| == 4 then
        Written([address, key, Row(PeerIncentive, NumberOf(args[2], 0, "%")),
                 Row(UserIncentive, NumberOf(args[3], 0, "%"))])
      else None
  }

  /** The rows of a call that is neither a list of transfers nor a staking call. */
  function CallRows(base58: Base58, call: G.Call, args: seq<G.Value>): Option<seq<Shown>> {
    var name := call.name;
    var more := if name == Ascii("approveV2") || name == Ascii("transferFromV2") then 9 else 0;
    if call.addr == ONT_ADDR then TokenRows(base58, name, args, more, " ONT")
    else if call.addr == ONG_ADDR then TokenRows(base58, name, args, 9 + more, " ONG")
    else if call.addr == WING_ADDR then NeoRows(base58, name, args, 9, " WING")
    else if call.addr == MBL_ADDR then NeoRows(base58, name, args, 8, " MBL")
    else if call.addr == STONT_ADDR then WasmRows(base58, name, args, 9, " stONT")
    else GovernanceRows(base58, name, args)
  }

  // ----- a plan written out

  /** Rows that have every parameter of a plan at its position are the plan's block. */
  lemma BlockWritten(c: seq<Config>, fields: seq<Field>, w: seq<Row>)
    requires Permuted(c) && |w| == |c| <= |fields|
    requires forall i :: 0 <= i < |c| ==> w[c[i].pos] == Row(c[i].item, fields[i].text)
    ensures Block(c, fields) == Written(w)
  {
    hide IndexAt;
    BlockNone(c, fields);
    if i :| 0 <= i < |c| && fields[i].text.None? {
      assert w[c[i].pos].text.None?;
    }
    forall p | 0 <= p < |w|
      ensures c[IndexAt(c, p)].pos == p && w[p] == Row(c[IndexAt(c, p)].item, fields[IndexAt(c, p)].text)
    {
    }
    if Block(c, fields).Some? {
      forall p | 0 <= p < |w|
        ensures Block(c, fields).value[p] == Shown(w[p].caption, w[p].text.value)
      {
        BlockEntry(c, fields, p);
      }
      assert Written(w).Some?;
      assert Block(c, fields).value == Written(w).value;
    }
  }

  /** A call whose plan is one block, and the fixed fee of registerCandidate. */
  lemma PlanWritten(info: Info, fields: seq<Field>, c: seq<Config>, w: seq<Row>)
    requires Configs(info.vm, info.name) == Some(c) && Permuted(c) && |w| == |c| <= |fields|
    requires !IsStaking(info.name) && (info.vm == NativeVm ==> !IsTransfer(info.name))
    requires forall i :: 0 <= i < |c| ==> w[c[i].pos] == Row(c[i].item, fields[i].text)
    ensures Plan(info, fields) ==
            if info.vm == NativeVm && info.name == REGISTER_CANDIDATE then Written(w + [Row(StakeFee, Some("500 ONG"))])
            else Written(w)
  {
    BlockWritten(c, fields, w);
    WrittenMore(w, StakeFee, "500 ONG");
    hide Block, Written, Configs, Permuted;
    ConfigsPermuted(info.vm, info.name);
  }

  lemma WrittenMore(w: seq<Row>, l: Label, text: string)
    ensures Written(w + [Row(l, Some(text))]) == Append(Written(w), Some([Shown(l, text)]))
  {
    var more := w + [Row(l, Some(text))];
    if i :| 0 <= i < |w| && w[i].text.None? {
      assert more[i].text.None?;
    }
    if Written(w).Some? {
      assert forall i :: 0 <= i < |w| ==> more[i] == w[i];
      assert Written(more).value == Written(w).value + [Shown(l, text)];
    }
  }

  // ----- from arguments to texts

  lemma {:induction false} ArgShape(t: Target, kinds: seq<ParamKind>, args: seq<G.Value>, cur: nat)
    requires G.ArgsOk(t, kinds, args, cur)
    ensures |args| == |kinds| && forall i :: 0 <= i < |args| ==> G.KindOf(args[i]) == kinds[i]
    decreases args
  {
    hide G.ValueOk;
    if args != [] {
      ArgShape(t, kinds[1..], args[1..], cur + G.Width(args[0]));
      assert forall i :: 1 <= i < |args| ==> args[i] == args[1..][i - 1] && kinds[i] == kinds[1..][i - 1];
    }
  }

  /** An argument with one text: an address, a key, or a number that has a text in its virtual machine. */
  predicate HasText(vm: Vm, v: G.Value) {
    v.Addr? || v.PubKey? || (v.Amt? && vm != WasmVm) || (v.Uint128? && vm == WasmVm)
  }

  function TextOf(base58: Base58, v: G.Value, d: nat, unit: string): Option<string> {
    if v.Addr? then AddressOf(base58, v) else if v.PubKey? then KeyOf(v) else NumberOf(v, d, unit)
  }

  lemma ValueText(base58: Base58, info: Info, v: G.Value)
    requires HasText(info.vm, v) && info.decimals <= 39
    ensures |ParamsOf(v)| == 1
    ensures ParamShown(base58, info, ParamsOf(v)[0]) == TextOf(base58, v, info.decimals, Suffix(info))
  {
    hide AmountText, Suffix, AsChars, G.AmountValue, LeValue;
  }

  lemma {:induction false} OneEach(vm: Vm, args: seq<G.Value>)
    requires forall i :: 0 <= i < |args| ==> HasText(vm, args[i])
    ensures |AllParams(args)| == |args|
    ensures forall i :: 0 <= i < |args| ==> |ParamsOf(args[i])| == 1 && AllParams(args)[i] == ParamsOf(args[i])[0]
  {
    if args != [] {
      OneEach(vm, args[1..]);
      assert forall i :: 1 <= i < |args| ==> args[i] == args[1..][i - 1];
    }
  }

  /** A call whose arguments all have a text, under a plan that shows each of them. */
  lemma PlainRows(t: Target, base58: Base58, tx: G.Tx, c: seq<Config>, w: seq<Row>)
    requires G.TxOk(t, tx) && !tx.payload.TransferList? && !IsStaking(tx.payload.call.name)
    requires var info, args := InfoOf(tx), ArgsOf(tx.payload);
             && info.decimals <= 39 && Configs(info.vm, info.name) == Some(c) && |args| == |c| == |w|
             && info.name != REGISTER_CANDIDATE && (info.vm == NativeVm ==> !IsTransfer(info.name))
             && (forall i :: 0 <= i < |args| ==> HasText(info.vm, args[i]))
             && forall i :: 0 <= i < |c| ==>
                  && c[i].pos < |w|
                  && w[c[i].pos] == Row(c[i].item, TextOf(base58, args[i], info.decimals, Suffix(info)))
    ensures Reviewed(base58, tx) == Written(w)
  {
    hide G.TxOk, Configs, Permuted, Written, IsStaking, IsTransfer, InfoOf, Plan, ItemFields, Contents, ParamsOf,
      TextOf,
      ParamShown, Suffix, HasText;
    var info, args := InfoOf(tx), ArgsOf(tx.payload);
    ConfigsPermuted(info.vm, info.name);
    NameOf(tx);
    FieldTexts(t, base58, tx);
    OneEach(info.vm, args);
    var fields := ItemFields(base58, info, Contents(tx.payload));
    forall i | 0 <= i < |c|
      ensures w[c[i].pos] == Row(c[i].item, fields[i].text)
    {
      ValueText(base58, info, args[i]);
    }
    PlanWritten(info, fields, c, w);
  }

  lemma NameOf(tx: G.Tx)
    ensures InfoOf(tx).name == tx.payload.call.name && InfoOf(tx).vm == G.VmOf(tx.payload)
  {
  }

  /** What the tables say about a call. */
  predicate Takes(t: Target, tx: G.Tx, kinds: seq<ParamKind>) {
    && G.TxOk(t, tx) && !tx.payload.TransferList? && !IsStaking(tx.payload.call.name)
    && Lookup(tx.payload.call.addr, tx.payload.call.name).Some?
    && Lookup(tx.payload.call.addr, tx.payload.call.name).value.kinds == kinds
  }

  lemma TakesArgs(t: Target, tx: G.Tx, kinds: seq<ParamKind>)
    requires Takes(t, tx, kinds)
    ensures var args := ArgsOf(tx.payload); |args| == |kinds| && forall i :: 0 <= i < |args| ==>
            G.KindOf(args[i]) == kinds[i]
  {
    hide G.TxOk, IsStaking, Lookup;
    CallArgs(t, tx);
    ArgShape(t, kinds, ArgsOf(tx.payload), 0);
  }

  // ----- tokens

  /** Numbers of the call are shown with these decimals and this unit. */
  predicate Units(tx: G.Tx, d: nat, unit: string) {
    InfoOf(tx).decimals == d <= 39 && Suffix(InfoOf(tx)) == unit
  }

  lemma ApproveRows(t: Target, base58: Base58, tx: G.Tx, d: nat, unit: string)
    requires Takes(t, tx, APPROVE_KINDS) && G.VmOf(tx.payload) == NativeVm && Units(tx, d, unit)
    requires tx.payload.call.name == APPROVE || tx.payload.call.name == APPROVE_V2
    ensures Reviewed(base58, tx) == TokenRows(base58, tx.payload.call.name, ArgsOf(tx.payload), d, unit)
  {
    hide Ascii, G.TxOk, Configs, Written, IsStaking, IsTransfer, InfoOf, AddressOf, NumberOf, Lookup, Suffix;
    TakesArgs(t, tx, APPROVE_KINDS);
    TokenPlans(NativeVm);
    NameOf(tx);
    TokenNamesHere();
    var args := ArgsOf(tx.payload);
    PlainRows(t, base58, tx, TRANSFER_CONFIGS,
      [Row(From, AddressOf(base58, args[0])), Row(Amount, NumberOf(args[2], d, unit)),
       Row(To, AddressOf(base58, args[1]))]);
  }

  /** The token methods other than the transfers of native tokens are none of the special ones. */
  lemma TokenNamesHere()
    ensures !IsTransfer(APPROVE) && !IsTransfer(APPROVE_V2) && !IsTransfer(TRANSFER_FROM) &&
            !IsTransfer(TRANSFER_FROM_V2)
    ensures APPROVE != TRANSFER_FROM && APPROVE_V2 != TRANSFER_FROM && APPROVE != TRANSFER_FROM_V2
    ensures APPROVE_V2 != TRANSFER_FROM_V2 && TRANSFER != TRANSFER_FROM && APPROVE != APPROVE_V2
    ensures TRANSFER_FROM != TRANSFER_FROM_V2
  {
    NamesDiffer();
    hide Ascii;
  }

  lemma SpenderFields(t: Target, base58: Base58, tx: G.Tx)
    requires Takes(t, tx, FROM_KINDS) && G.VmOf(tx.payload) != WasmVm && InfoOf(tx).decimals <= 39
    ensures var args, info := ArgsOf(tx.payload), InfoOf(tx);
            var fields := ItemFields(base58, info, Contents(tx.payload));
            && |args| == 2 && args[0].Addr? && args[1].State? && |fields| == 4
            && fields[0].text == AddressOf(base58, args[0]) && fields[1].text == base58(args[1].transfer.from)
            && fields[2].text == base58(args[1].transfer.to)
            && fields[3].text == NumberOf(G.Amt(args[1].transfer.amount), info.decimals, Suffix(info))
  {
    TakesArgs(t, tx, FROM_KINDS);
    hide Ascii, G.TxOk, IsStaking, InfoOf, Lookup, Suffix, Contents, ItemFields, AmountText, G.AmountValue;
    FieldTexts(t, base58, tx);
    NameOf(tx);
    var args := ArgsOf(tx.payload);
    assert AllParams(args[1..]) == ParamsOf(args[1]);
    assert CallParams(tx) == ParamsOf(args[0]) + ParamsOf(args[1]);
  }

  lemma TransferFromRows(t: Target, base58: Base58, tx: G.Tx, d: nat, unit: string)
    requires Takes(t, tx, FROM_KINDS) && G.VmOf(tx.payload) == NativeVm && Units(tx, d, unit)
    requires tx.payload.call.name == TRANSFER_FROM || tx.payload.call.name == TRANSFER_FROM_V2
    ensures Reviewed(base58, tx) == TokenRows(base58, tx.payload.call.name, ArgsOf(tx.payload), d, unit)
  {
    hide Ascii, G.TxOk, Configs, Written, IsStaking, IsTransfer, InfoOf, AddressOf, NumberOf, Lookup, Suffix, Plan,
      Permuted,
      Contents, ItemFields;
    SpenderFields(t, base58, tx);
    TokenPlans(NativeVm);
    ConfigsPermuted(NativeVm, tx.payload.call.name);
    NameOf(tx);
    TokenNamesHere();
    var args, fields := ArgsOf(tx.payload), ItemFields(base58, InfoOf(tx), Contents(tx.payload));
    var s := args[1].transfer;
    PlanWritten(InfoOf(tx), fields, SPENDER_CONFIGS,
      [Row(Spender, AddressOf(base58, args[0])), Row(From, base58(s.from)),
       Row(Amount, NumberOf(G.Amt(s.amount), d, unit)),
       Row(To, base58(s.to))]);
  }

  lemma NeoTransferRows(t: Target, base58: Base58, tx: G.Tx, d: nat, unit: string)
    requires Takes(t, tx, OEP4_KINDS) && G.VmOf(tx.payload) == NeoVm && Units(tx, d, unit)
    requires tx.payload.call.name == TRANSFER || tx.payload.call.name == APPROVE
    ensures Reviewed(base58, tx) == NeoRows(base58, tx.payload.call.name, ArgsOf(tx.payload), d, unit)
  {
    hide Ascii, G.TxOk, Configs, Written, IsStaking, IsTransfer, InfoOf, AddressOf, NumberOf, Lookup, Suffix;
    TakesArgs(t, tx, OEP4_KINDS);
    TokenPlans(NeoVm);
    NameOf(tx);
    var args := ArgsOf(tx.payload);
    PlainRows(t, base58, tx, NEO_CONFIGS,
      [Row(From, AddressOf(base58, args[2])), Row(Amount, NumberOf(args[0], d, unit)),
       Row(To, AddressOf(base58, args[1]))]);
  }

  lemma NeoTransferFromRows(t: Target, base58: Base58, tx: G.Tx, d: nat, unit: string)
    requires Takes(t, tx, OEP4_FROM_KINDS) && G.VmOf(tx.payload) == NeoVm && Units(tx, d, unit)
    requires tx.payload.call.name == TRANSFER_FROM
    ensures Reviewed(base58, tx) == NeoRows(base58, tx.payload.call.name, ArgsOf(tx.payload), d, unit)
  {
    hide Ascii, G.TxOk, Configs, Written, IsStaking, IsTransfer, InfoOf, AddressOf, NumberOf, Lookup, Suffix;
    TakesArgs(t, tx, OEP4_FROM_KINDS);
    TokenPlans(NeoVm);
    NameOf(tx);
    TokenNamesHere();
    var args := ArgsOf(tx.payload);
    PlainRows(t, base58, tx, NEO_SPENDER_CONFIGS,
      [Row(Spender, AddressOf(base58, args[3])), Row(From, AddressOf(base58, args[2])),
       Row(Amount, NumberOf(args[0], d, unit)), Row(To, AddressOf(base58, args[1]))]);
  }

  lemma WasmTransferRows(t: Target, base58: Base58, tx: G.Tx, d: nat, unit: string)
    requires Takes(t, tx, WASM_KINDS) && G.VmOf(tx.payload) == WasmVm && Units(tx, d, unit)
    requires tx.payload.call.name == TRANSFER || tx.payload.call.name == APPROVE
    ensures Reviewed(base58, tx) == WasmRows(base58, tx.payload.call.name, ArgsOf(tx.payload), d, unit)
  {
    hide Ascii, G.TxOk, Configs, Written, IsStaking, IsTransfer, InfoOf, AddressOf, NumberOf, Lookup, Suffix;
    TakesArgs(t, tx, WASM_KINDS);
    TokenPlans(WasmVm);
    NameOf(tx);
    var args := ArgsOf(tx.payload);
    PlainRows(t, base58, tx, TRANSFER_CONFIGS,
      [Row(From, AddressOf(base58, args[0])), Row(Amount, NumberOf(args[2], d, unit)),
       Row(To, AddressOf(base58, args[1]))]);
  }

  lemma WasmTransferFromRows(t: Target, base58: Base58, tx: G.Tx, d: nat, unit: string)
    requires Takes(t, tx, WASM_FROM_KINDS) && G.VmOf(tx.payload) == WasmVm && Units(tx, d, unit)
    requires tx.payload.call.name == TRANSFER_FROM
    ensures Reviewed(base58, tx) == WasmRows(base58, tx.payload.call.name, ArgsOf(tx.payload), d, unit)
  {
    hide Ascii, G.TxOk, Configs, Written, IsStaking, IsTransfer, InfoOf, AddressOf, NumberOf, Lookup, Suffix;
    TakesArgs(t, tx, WASM_FROM_KINDS);
    TokenPlans(WasmVm);
    NameOf(tx);
    TokenNamesHere();
    var args := ArgsOf(tx.payload);
    PlainRows(t, base58, tx, SPENDER_CONFIGS,
      [Row(Spender, AddressOf(base58, args[0])), Row(From, AddressOf(base58, args[1])),
       Row(Amount, NumberOf(args[3], d, unit)), Row(To, AddressOf(base58, args[2]))]);
  }

  // ----- governance

  const KEYS := [Config(PeerPubkey, 1), Config(StakeAddress, 0)]

  lemma GovernancePlans()
    ensures Configs(NativeVm, QUIT_NODE) == Some(KEYS) &&
            Configs(NativeVm, WITHDRAW_FEE) == Some([Config(StakeAddress, 0)])
    ensures Configs(NativeVm, REGISTER_CANDIDATE) == Some(STAKES) && Configs(NativeVm, ADD_INIT_POS) == Some(STAKES)
    ensures Configs(NativeVm, REDUCE_INIT_POS) == Some(Keyed(Amount))
    ensures Configs(NativeVm, CHANGE_MAX_AUTH) == Some(Keyed(MaxAuthorize))
    ensures Configs(NativeVm, SET_FEE_PERCENTAGE) == Some(RATIOS)
  {
    NamesDiffer();
    hide Ascii;
  }

  function Keyed(l: Label): seq<Config> {
    [Config(PeerPubkey, 1), Config(StakeAddress, 0), Config(l, 2)]
  }

  const RATIOS := [Config(PeerPubkey, 1), Config(StakeAddress, 0), Config(PeerIncentive, 2), Config(UserIncentive, 3)]

  /** Governance names are neither transfers nor the wrong special method. */
  lemma GovernanceNamesDiffer(name: seq<byte>)
    requires IsGovernance(name)
    ensures !IsTransfer(name)
    ensures name == REGISTER_CANDIDATE ==> name != SET_FEE_PERCENTAGE
    ensures (|| name == QUIT_NODE || name == WITHDRAW_FEE || name == ADD_INIT_POS || name == REDUCE_INIT_POS
             || name == CHANGE_MAX_AUTH || name == SET_FEE_PERCENTAGE) ==> name != REGISTER_CANDIDATE
    ensures (|| name == QUIT_NODE || name == WITHDRAW_FEE || name == ADD_INIT_POS || name == REDUCE_INIT_POS
             || name == CHANGE_MAX_AUTH) ==> name != SET_FEE_PERCENTAGE
  {
    NamesDiffer();
    assert REGISTER_CANDIDATE[0] == 0x72 && REDUCE_INIT_POS[0] == 0x72 && CHANGE_MAX_AUTH[0] == 0x63;
    assert WITHDRAW_FEE[0] == 0x77;
    hide Ascii;
  }

  predicate IsGovernance(name: seq<byte>) {
    || name == REGISTER_CANDIDATE || name == QUIT_NODE || name == ADD_INIT_POS || name == REDUCE_INIT_POS
    || name == CHANGE_MAX_AUTH || name == SET_FEE_PERCENTAGE || name == WITHDRAW_FEE
  }

  predicate GovernanceCall(t: Target, tx: G.Tx, kinds: seq<ParamKind>, name: seq<byte>) {
    Takes(t, tx, kinds) && G.VmOf(tx.payload) == NativeVm && tx.payload.call == G.Call(GOV_ADDR, name)
  }

  lemma GovernanceUnits(tx: G.Tx)
    requires tx.payload.call.addr == GOV_ADDR && G.VmOf(tx.payload) == NativeVm
    ensures Units(tx, 0, if tx.payload.call.name == SET_FEE_PERCENTAGE then "%" else " ONT")
  {
    assert ONT_ADDR[19] == 1 && ONG_ADDR[19] == 2 && GOV_ADDR[19] == 7;
    assert FindContract(GOV_ADDR, 2) == Some(CONTRACTS[2]);
    assert FindContract(GOV_ADDR, 0) == Some(CONTRACTS[2]);
    hide Ascii;
    assert " " + "ONT" == " ONT";
  }

  /** A governance call with one row for every argument. */
  lemma GovernancePlain(t: Target, base58: Base58, tx: G.Tx, kinds: seq<ParamKind>, name: seq<byte>, unit: string,
                        c: seq<Config>, w: seq<Row>)
    requires GovernanceCall(t, tx, kinds, name) && IsGovernance(name) && name != REGISTER_CANDIDATE
    requires unit == if name == SET_FEE_PERCENTAGE then "%" else " ONT"
    requires Configs(NativeVm, name) == Some(c) && |c| == |w| == |kinds|
    requires forall i :: 0 <= i < |kinds| ==> kinds[i] == AddrKind || kinds[i] == PubKeyKind || kinds[i] == AmountKind
    requires var args := ArgsOf(tx.payload);
             |args| == |c| ==>
               forall i :: 0 <= i < |c| ==>
                 c[i].pos < |w| && w[c[i].pos] == Row(c[i].item, TextOf(base58, args[i], 0, unit))
    ensures |ArgsOf(tx.payload)| == |kinds| && Reviewed(base58, tx) == Written(w)
  {
    GovernanceFacts(t, tx, kinds, name);
    NameOf(tx);
    hide Ascii, G.TxOk, Configs, Written, IsStaking, IsTransfer, InfoOf, TextOf, Lookup, Suffix, IsGovernance, HasText,
      AddressOf, KeyOf, NumberOf, Reviewed;
    PlainRows(t, base58, tx, c, w);
  }

  lemma GovernanceFacts(t: Target, tx: G.Tx, kinds: seq<ParamKind>, name: seq<byte>)
    requires GovernanceCall(t, tx, kinds, name) && IsGovernance(name)
    requires forall i :: 0 <= i < |kinds| ==> kinds[i] == AddrKind || kinds[i] == PubKeyKind || kinds[i] == AmountKind
    ensures Units(tx, 0, if name == SET_FEE_PERCENTAGE then "%" else " ONT") && !IsTransfer(name)
    ensures G.VmOf(tx.payload) == NativeVm && tx.payload.call.name == name
    ensures G.TxOk(t, tx) && !tx.payload.TransferList? && !IsStaking(name)
    ensures |ArgsOf(tx.payload)| == |kinds| && HaveTexts(ArgsOf(tx.payload))
  {
    CallFacts(t, tx, kinds, name);
    TakesArgs(t, tx, kinds);
    KindTexts(ArgsOf(tx.payload), kinds);
    hide *;
    GovernanceUnits(tx);
    GovernanceNamesDiffer(name);
  }

  lemma CallFacts(t: Target, tx: G.Tx, kinds: seq<ParamKind>, name: seq<byte>)
    requires GovernanceCall(t, tx, kinds, name)
    ensures Takes(t, tx, kinds) && G.VmOf(tx.payload) == NativeVm && tx.payload.call == G.Call(GOV_ADDR, name)
    ensures G.TxOk(t, tx) && !tx.payload.TransferList? && !IsStaking(name)
  {
    hide G.TxOk, Lookup, IsStaking, Ascii;
  }

  /** Arguments that have a text in a native call. */
  predicate HaveTexts(args: seq<G.Value>) {
    forall i :: 0 <= i < |args| ==> HasText(NativeVm, args[i])
  }

  lemma KindTexts(args: seq<G.Value>, kinds: seq<ParamKind>)
    requires |args| == |kinds| && forall i :: 0 <= i < |args| ==> G.KindOf(args[i]) == kinds[i]
    requires forall i :: 0 <= i < |kinds| ==> kinds[i] == AddrKind || kinds[i] == PubKeyKind || kinds[i] == AmountKind
    ensures HaveTexts(args)
  {
  }

  lemma WithdrawFeeRows(t: Target, base58: Base58, tx: G.Tx)
    requires GovernanceCall(t, tx, [AddrKind], WITHDRAW_FEE)
    ensures |ArgsOf(tx.payload)| == 1
    ensures Reviewed(base58, tx) == Written([Row(StakeAddress, AddressOf(base58, ArgsOf(tx.payload)[0]))])
  {
    hide Ascii, GovernanceCall, Takes, G.TxOk, IsStaking, Lookup, Configs, Written, AddressOf, KeyOf, NumberOf,
      IsTransfer,
      Reviewed;
    CallFacts(t, tx, [AddrKind], WITHDRAW_FEE);
    TakesArgs(t, tx, [AddrKind]);
    GovernancePlans();
    GovernanceNamesDiffer(WITHDRAW_FEE);
    GovernancePlain(t, base58, tx, [AddrKind], WITHDRAW_FEE, " ONT", [Config(StakeAddress, 0)],
      [Row(StakeAddress, AddressOf(base58, ArgsOf(tx.payload)[0]))]);
  }

  lemma QuitNodeRows(t: Target, base58: Base58, tx: G.Tx)
    requires GovernanceCall(t, tx, [PubKeyKind, AddrKind], QUIT_NODE)
    ensures |ArgsOf(tx.payload)| == 2
    ensures var args := ArgsOf(tx.payload);
            Reviewed(base58,
                     tx) == Written([Row(StakeAddress, AddressOf(base58, args[1])), Row(PeerPubkey, KeyOf(args[0]))])
  {
    hide Ascii, GovernanceCall, Takes, G.TxOk, IsStaking, Lookup, Configs, Written, AddressOf, KeyOf, NumberOf,
      IsTransfer,
      Reviewed;
    CallFacts(t, tx, [PubKeyKind, AddrKind], QUIT_NODE);
    TakesArgs(t, tx, [PubKeyKind, AddrKind]);
    GovernancePlans();
    GovernanceNamesDiffer(QUIT_NODE);
    var args := ArgsOf(tx.payload);
    GovernancePlain(t, base58, tx, [PubKeyKind, AddrKind], QUIT_NODE, " ONT", KEYS,
      [Row(StakeAddress, AddressOf(base58, args[1])), Row(PeerPubkey, KeyOf(args[0]))]);
  }

  /** The methods with a key, an address and one amount. */
  lemma KeyedRows(t: Target, base58: Base58, tx: G.Tx, name: seq<byte>, l: Label)
    requires GovernanceCall(t, tx, KEYED, name)
    requires || (name == ADD_INIT_POS && l == StakeAmount) || (name == REDUCE_INIT_POS && l == Amount)
             || (name == CHANGE_MAX_AUTH && l == MaxAuthorize)
    ensures |ArgsOf(tx.payload)| == 3
    ensures var args := ArgsOf(tx.payload);
            Reviewed(base58, tx) ==
            Written([Row(StakeAddress, AddressOf(base58, args[1])), Row(PeerPubkey, KeyOf(args[0])),
                     Row(l, NumberOf(args[2], 0, " ONT"))])
  {
    hide Ascii, GovernanceCall, Takes, G.TxOk, IsStaking, Lookup, Configs, Written, AddressOf, KeyOf, NumberOf,
      IsTransfer,
      Reviewed;
    CallFacts(t, tx, KEYED, name);
    TakesArgs(t, tx, KEYED);
    GovernancePlans();
    GovernanceNamesDiffer(name);
    var args := ArgsOf(tx.payload);
    GovernancePlain(t, base58, tx, KEYED, name, " ONT", Keyed(l),
      [Row(StakeAddress, AddressOf(base58, args[1])), Row(PeerPubkey, KeyOf(args[0])),
       Row(l, NumberOf(args[2], 0, " ONT"))]);
  }

  const RATIO_KINDS := [PubKeyKind, AddrKind, AmountKind, AmountKind]

  lemma FeePercentageRows(t: Target, base58: Base58, tx: G.Tx)
    requires GovernanceCall(t, tx, RATIO_KINDS, SET_FEE_PERCENTAGE)
    ensures |ArgsOf(tx.payload)| == 4
    ensures var args := ArgsOf(tx.payload);
            Reviewed(base58, tx) ==
            Written([Row(StakeAddress, AddressOf(base58, args[1])), Row(PeerPubkey, KeyOf(args[0])),
                     Row(PeerIncentive, NumberOf(args[2], 0, "%")), Row(UserIncentive, NumberOf(args[3], 0, "%"))])
  {
    hide Ascii, GovernanceCall, Takes, G.TxOk, IsStaking, Lookup, Configs, Written, AddressOf, KeyOf, NumberOf,
      IsTransfer,
      Reviewed;
    CallFacts(t, tx, RATIO_KINDS, SET_FEE_PERCENTAGE);
    TakesArgs(t, tx, RATIO_KINDS);
    GovernancePlans();
    GovernanceNamesDiffer(SET_FEE_PERCENTAGE);
    var args := ArgsOf(tx.payload);
    GovernancePlain(t, base58, tx, RATIO_KINDS, SET_FEE_PERCENTAGE, "%", RATIOS,
      [Row(StakeAddress, AddressOf(base58, args[1])), Row(PeerPubkey, KeyOf(args[0])),
       Row(PeerIncentive, NumberOf(args[2], 0, "%")), Row(UserIncentive, NumberOf(args[3], 0, "%"))]);
  }

  lemma RegisterFields(t: Target, base58: Base58, tx: G.Tx)
    requires Takes(t, tx, REGISTER_KINDS) && G.VmOf(tx.payload) != WasmVm && InfoOf(tx).decimals <= 39
    ensures var args, info := ArgsOf(tx.payload), InfoOf(tx);
            var fields := ItemFields(base58, info, Contents(tx.payload));
            && |args| == 5 && |fields| == 4
            && fields[0].text == KeyOf(args[0]) && fields[1].text == AddressOf(base58, args[1])
            && fields[2].text == NumberOf(args[2], info.decimals, Suffix(info))
  {
    hide Ascii, G.TxOk, IsStaking, InfoOf, Lookup, Suffix, Contents, ItemFields, ParamShown, ParamsOf, AddressOf, KeyOf,
      NumberOf;
    TakesArgs(t, tx, REGISTER_KINDS);
    var args, info := ArgsOf(tx.payload), InfoOf(tx);
    assert args[0].PubKey? && args[1].Addr? && args[2].Amt? && args[3].OntId? && args[4].Amt?;
    NameOf(tx);
    ValueText(base58, info, args[0]);
    ValueText(base58, info, args[1]);
    ValueText(base58, info, args[2]);
    ValueText(base58, info, args[4]);
    FiveParams(args);
    FieldTexts(t, base58, tx);
  }

  lemma FiveParams(args: seq<G.Value>)
    requires |args| == 5 && args[0].PubKey? && args[1].Addr? && args[2].Amt? && args[3].OntId? && args[4].Amt?
    ensures AllParams(args) == ParamsOf(args[0]) + ParamsOf(args[1]) + ParamsOf(args[2]) + ParamsOf(args[4])
  {
    hide G.AmountValue;
    var a1, a2, a3, a4 := args[1..], args[2..], args[3..], args[4..];
    assert a1[1..] == a2 && a2[1..] == a3 && a3[1..] == a4 && a4[1..] == [];
    assert AllParams(a4) == ParamsOf(args[4]);
    assert AllParams(a3) == AllParams(a4);
    assert AllParams(a2) == ParamsOf(args[2]) + AllParams(a3);
    assert AllParams(a1) == ParamsOf(args[1]) + AllParams(a2);
  }

  lemma RegisterRows(t: Target, base58: Base58, tx: G.Tx)
    requires GovernanceCall(t, tx, REGISTER_KINDS, REGISTER_CANDIDATE)
    ensures |ArgsOf(tx.payload)| == 5
    ensures var args := ArgsOf(tx.payload);
            Reviewed(base58, tx) ==
            Written([Row(StakeAddress, AddressOf(base58, args[1])), Row(PeerPubkey, KeyOf(args[0])),
                     Row(StakeAmount, NumberOf(args[2], 0, " ONT")), Row(StakeFee, Some("500 ONG"))])
  {
    GovernancePlans();
    GovernanceUnits(tx);
    GovernanceNamesDiffer(REGISTER_CANDIDATE);
    RegisterFields(t, base58, tx);
    ConfigsPermuted(NativeVm, REGISTER_CANDIDATE);
    NameOf(tx);
    hide Ascii, G.TxOk, Configs, Written, IsStaking, IsTransfer, InfoOf, AddressOf, KeyOf, NumberOf, Lookup, Suffix,
      Plan,
      Permuted, Contents, ItemFields;
    var args, fields := ArgsOf(tx.payload), ItemFields(base58, InfoOf(tx), Contents(tx.payload));
    var w := [Row(StakeAddress, AddressOf(base58, args[1])), Row(PeerPubkey, KeyOf(args[0])),
              Row(StakeAmount, NumberOf(args[2], 0, " ONT"))];
    PlanWritten(InfoOf(tx), fields, STAKES, w);
    assert w + [Row(StakeFee, Some("500 ONG"))] ==
      [Row(StakeAddress, AddressOf(base58, args[1])), Row(PeerPubkey, KeyOf(args[0])),
       Row(StakeAmount, NumberOf(args[2], 0, " ONT")), Row(StakeFee, Some("500 ONG"))];
  }

  // ----- every call at home

  lemma HomeOf(addr: seq<byte>)
    requires FindContract(addr, 0).Some?
    ensures var c := FindContract(addr, 0).value;
            || (addr == ONT_ADDR && c == CONTRACTS[0]) || (addr == ONG_ADDR && c == CONTRACTS[1])
            || (addr == GOV_ADDR && c == CONTRACTS[2]) || (addr == WING_ADDR && c == CONTRACTS[3])
            || (addr == STONT_ADDR && c == CONTRACTS[4]) || (addr == MBL_ADDR && c == CONTRACTS[5])
    ensures ONT_ADDR != ONG_ADDR && ONT_ADDR != GOV_ADDR && ONG_ADDR != GOV_ADDR
    ensures forall a :: a == WING_ADDR || a == STONT_ADDR || a == MBL_ADDR ==> a[0] != 0
    ensures WING_ADDR != STONT_ADDR && WING_ADDR != MBL_ADDR && STONT_ADDR != MBL_ADDR
    ensures ONT_ADDR[0] == ONG_ADDR[0] == GOV_ADDR[0] == 0
  {
    ContractFound(addr, 0);
    assert WING_ADDR[0] == 0x80 && MBL_ADDR[0] == 0x6d && STONT_ADDR[0] == 0xcd;
    assert ONT_ADDR[19] == 1 && ONG_ADDR[19] == 2 && GOV_ADDR[19] == 7;
    hide Ascii;
  }

  /** A call of neither kind of list, with the parameters the tables give its name. */
  lemma TakesSome(t: Target, tx: G.Tx)
    requires G.TxOk(t, tx) && !tx.payload.TransferList? && !IsStaking(tx.payload.call.name)
    ensures var call := tx.payload.call;
            && Lookup(call.addr, call.name).Some? && FindContract(call.addr, 0).Some?
            && var kinds := Lookup(call.addr, call.name).value.kinds;
               Takes(t, tx, kinds) && !HasLists(kinds)
               && MethodSig(call.name, kinds) in FindContract(call.addr, 0).value.methods
  {
    hide G.TxOk, IsStaking, FindContract, FindMethod, HasLists;
    CallArgs(t, tx);
    NoLists(t, tx);
    MethodFound(FindContract(tx.payload.call.addr, 0).value.methods, tx.payload.call.name, 0);
  }

  lemma ListKinds()
    ensures HasLists([TransferStateListKind]) && HasLists([AddrKind, PkAmountPairsKind])
  {
    assert [TransferStateListKind][0] == TransferStateListKind && [AddrKind, PkAmountPairsKind][1] == PkAmountPairsKind;
  }

  lemma TokenUnits(tx: G.Tx)
    requires G.VmOf(tx.payload) == NativeVm && (tx.payload.call.addr == ONT_ADDR || tx.payload.call.addr == ONG_ADDR)
    requires var name := tx.payload.call.name;
             name == APPROVE || name == APPROVE_V2 || name == TRANSFER_FROM || name == TRANSFER_FROM_V2
    ensures var call := tx.payload.call;
            var more := if call.name == APPROVE_V2 || call.name == TRANSFER_FROM_V2 then 9 else 0;
            if call.addr == ONT_ADDR then Units(tx, more, " ONT") else Units(tx, 9 + more, " ONG")
  {
    HomeOf(ONT_ADDR);
    HomeOf(ONG_ADDR);
    assert FindContract(ONT_ADDR, 0) == Some(CONTRACTS[0]);
    assert FindContract(ONG_ADDR, 1) == Some(CONTRACTS[1]);
    NamesDiffer();
    hide Ascii;
    assert " " + "ONT" == " ONT" && " " + "ONG" == " ONG";
  }

  lemma TokenReview(t: Target, base58: Base58, tx: G.Tx)
    requires G.TxOk(t, tx) && tx.payload.NativeCall? && !IsStaking(tx.payload.call.name)
    requires tx.payload.call.addr == ONT_ADDR || tx.payload.call.addr == ONG_ADDR
    ensures Reviewed(base58, tx) == CallRows(base58, tx.payload.call, ArgsOf(tx.payload))
  {
    hide Ascii, G.TxOk, Lookup, HasLists, IsStaking, TokenRows, NeoRows, WasmRows, GovernanceRows, Takes, Units,
      FindContract, Reviewed, IsTransfer;
    TakesSome(t, tx);
    HomeOf(tx.payload.call.addr);
    var name, kinds := tx.payload.call.name, Lookup(tx.payload.call.addr, tx.payload.call.name).value.kinds;
    NativeEntries(name, kinds);
    TokenUnits(tx);
    var call := tx.payload.call;
    var more := if name == APPROVE_V2 || name == TRANSFER_FROM_V2 then 9 else 0;
    var d := if call.addr == ONT_ADDR then more else 9 + more;
    var unit := if call.addr == ONT_ADDR then " ONT" else " ONG";
    if name == APPROVE || name == APPROVE_V2 {
      ApproveRows(t, base58, tx, d, unit);
    } else {
      TransferFromRows(t, base58, tx, d, unit);
    }
  }

  lemma NativeEntries(name: seq<byte>, kinds: seq<ParamKind>)
    requires MethodSig(name, kinds) in NATIVE_TOKEN_METHODS && !HasLists(kinds)
    ensures || ((name == APPROVE || name == APPROVE_V2) && kinds == APPROVE_KINDS)
            || ((name == TRANSFER_FROM || name == TRANSFER_FROM_V2) && kinds == FROM_KINDS)
  {
    ListKinds();
    hide Ascii, HasLists;
  }

  lemma TokenUnitsAt(tx: G.Tx, i: nat, vm: Vm)
    requires 3 <= i < 6 && G.VmOf(tx.payload) == vm != NativeVm && tx.payload.call.name != SET_FEE_PERCENTAGE
    requires FindContract(tx.payload.call.addr, 0) == Some(CONTRACTS[i])
    ensures if i == 3 then Units(tx, 9, " WING") else if i == 4 then Units(tx, 9, " stONT") else Units(tx, 8, " MBL")
  {
    hide Ascii;
    assert " " + "WING" == " WING" && " " + "stONT" == " stONT" && " " + "MBL" == " MBL";
  }

  lemma OepNames()
    ensures TRANSFER != SET_FEE_PERCENTAGE && APPROVE != SET_FEE_PERCENTAGE && TRANSFER_FROM != SET_FEE_PERCENTAGE
  {
    NamesDiffer();
    hide Ascii;
  }

  lemma NeoEntries(name: seq<byte>, kinds: seq<ParamKind>)
    requires MethodSig(name, kinds) in NEOVM_OEP4_METHODS
    ensures || ((name == TRANSFER || name == APPROVE) && kinds == OEP4_KINDS)
            || (name == TRANSFER_FROM && kinds == OEP4_FROM_KINDS)
    ensures name != SET_FEE_PERCENTAGE
  {
    OepNames();
    hide Ascii;
  }

  lemma NeoReview(t: Target, base58: Base58, tx: G.Tx)
    requires G.TxOk(t, tx) && tx.payload.NeoCall? && !IsStaking(tx.payload.call.name)
    requires tx.payload.call.addr == WING_ADDR || tx.payload.call.addr == MBL_ADDR
    ensures Reviewed(base58, tx) == CallRows(base58, tx.payload.call, ArgsOf(tx.payload))
  {
    hide Ascii, G.TxOk, Lookup, HasLists, IsStaking, TokenRows, NeoRows, WasmRows, GovernanceRows, Takes, Units,
      FindContract, Reviewed, HasText;
    TakesSome(t, tx);
    HomeOf(tx.payload.call.addr);
    var name, kinds := tx.payload.call.name, Lookup(tx.payload.call.addr, tx.payload.call.name).value.kinds;
    NeoEntries(name, kinds);
    var wing := tx.payload.call.addr == WING_ADDR;
    TokenUnitsAt(tx, if wing then 3 else 5, NeoVm);
    if name == TRANSFER_FROM {
      NeoTransferFromRows(t, base58, tx, if wing then 9 else 8, if wing then " WING" else " MBL");
    } else {
      NeoTransferRows(t, base58, tx, if wing then 9 else 8, if wing then " WING" else " MBL");
    }
  }

  lemma WasmEntries(name: seq<byte>, kinds: seq<ParamKind>)
    requires MethodSig(name, kinds) in WASMVM_OEP4_METHODS
    ensures || ((name == TRANSFER || name == APPROVE) && kinds == WASM_KINDS)
            || (name == TRANSFER_FROM && kinds == WASM_FROM_KINDS)
    ensures name != SET_FEE_PERCENTAGE
  {
    OepNames();
    hide Ascii;
  }

  lemma WasmReview(t: Target, base58: Base58, tx: G.Tx)
    requires G.TxOk(t, tx) && tx.payload.WasmCall? && !IsStaking(tx.payload.call.name) &&
             tx.payload.call.addr == STONT_ADDR
    ensures Reviewed(base58, tx) == CallRows(base58, tx.payload.call, ArgsOf(tx.payload))
  {
    hide Ascii, G.TxOk, Lookup, HasLists, IsStaking, TokenRows, NeoRows, WasmRows, GovernanceRows, Takes, Units,
      FindContract, Reviewed, HasText;
    TakesSome(t, tx);
    HomeOf(tx.payload.call.addr);
    var name, kinds := tx.payload.call.name, Lookup(tx.payload.call.addr, tx.payload.call.name).value.kinds;
    WasmEntries(name, kinds);
    TokenUnitsAt(tx, 4, WasmVm);
    if name == TRANSFER_FROM {
      WasmTransferFromRows(t, base58, tx, 9, " stONT");
    } else {
      WasmTransferRows(t, base58, tx, 9, " stONT");
    }
  }

  lemma GovernanceEntries(name: seq<byte>, kinds: seq<ParamKind>)
    requires MethodSig(name, kinds) in GOVERNANCE_METHODS && !HasLists(kinds)
    ensures || (name == REGISTER_CANDIDATE && kinds == REGISTER_KINDS)
            || (name == QUIT_NODE && kinds == [PubKeyKind, AddrKind])
            || ((name == ADD_INIT_POS || name == REDUCE_INIT_POS || name == CHANGE_MAX_AUTH) && kinds == KEYED)
            || (name == SET_FEE_PERCENTAGE && kinds == RATIO_KINDS) || (name == WITHDRAW_FEE && kinds == [AddrKind])
  {
    ListKinds();
    hide Ascii, HasLists;
  }

  lemma GovernanceDistinct()
    ensures REGISTER_CANDIDATE != WITHDRAW_FEE && QUIT_NODE != WITHDRAW_FEE && ADD_INIT_POS != WITHDRAW_FEE
    ensures REDUCE_INIT_POS != WITHDRAW_FEE && CHANGE_MAX_AUTH != WITHDRAW_FEE && SET_FEE_PERCENTAGE != WITHDRAW_FEE
    ensures REGISTER_CANDIDATE != QUIT_NODE && ADD_INIT_POS != QUIT_NODE && REDUCE_INIT_POS != QUIT_NODE
    ensures CHANGE_MAX_AUTH != QUIT_NODE && SET_FEE_PERCENTAGE != QUIT_NODE && ADD_INIT_POS != REGISTER_CANDIDATE
    ensures REDUCE_INIT_POS != REGISTER_CANDIDATE && CHANGE_MAX_AUTH != REGISTER_CANDIDATE
    ensures SET_FEE_PERCENTAGE != REGISTER_CANDIDATE && REDUCE_INIT_POS != ADD_INIT_POS &&
            CHANGE_MAX_AUTH != ADD_INIT_POS
    ensures SET_FEE_PERCENTAGE != ADD_INIT_POS && CHANGE_MAX_AUTH != REDUCE_INIT_POS
    ensures SET_FEE_PERCENTAGE != REDUCE_INIT_POS && SET_FEE_PERCENTAGE != CHANGE_MAX_AUTH
  {
    NamesDiffer();
    hide Ascii;
  }

  lemma GovernanceReview(t: Target, base58: Base58, tx: G.Tx)
    requires G.TxOk(t, tx) && tx.payload.NativeCall? && !IsStaking(tx.payload.call.name) &&
             tx.payload.call.addr == GOV_ADDR
    ensures Reviewed(base58, tx) == GovernanceRows(base58, tx.payload.call.name, ArgsOf(tx.payload))
  {
    hide Ascii, G.TxOk, Lookup, HasLists, IsStaking, Takes, FindContract, Written, AddressOf, KeyOf, NumberOf, Reviewed;
    TakesSome(t, tx);
    HomeOf(tx.payload.call.addr);
    var name, kinds := tx.payload.call.name, Lookup(tx.payload.call.addr, tx.payload.call.name).value.kinds;
    GovernanceEntries(name, kinds);
    GovernanceDistinct();
    if name == REGISTER_CANDIDATE {
      RegisterRows(t, base58, tx);
    } else if name == QUIT_NODE {
      QuitNodeRows(t, base58, tx);
    } else if name == SET_FEE_PERCENTAGE {
      FeePercentageRows(t, base58, tx);
    } else if name == WITHDRAW_FEE {
      WithdrawFeeRows(t, base58, tx);
    } else {
      var l := if name == ADD_INIT_POS then StakeAmount else if name == REDUCE_INIT_POS then Amount else MaxAuthorize;
      KeyedRows(t, base58, tx, name, l);
    }
  }

  /** The call is made in the virtual machine its contract lives in. */
  predicate AtHome(p: G.Payload) {
    if p.call.addr == WING_ADDR || p.call.addr == MBL_ADDR then p.NeoCall?
    else if p.call.addr == STONT_ADDR then p.WasmCall?
    else p.NativeCall?
  }

  /** Calls with one row for each argument: not those with a list of keys. */
  predicate RowByRow(p: G.Payload) {
    AtHome(p)
    && p.call.name != Ascii("authorizeForPeer") && p.call.name != Ascii("unAuthorizeForPeer")
    && p.call.name != Ascii("withdraw")
  }

  /** Every call of a contract in its own virtual machine, but the staking calls, is reviewed with exactly
      the rows written out above; there is no review exactly if an address has no text. */
  lemma CallReview(t: Target, base58: Base58, tx: G.Tx)
    requires G.TxOk(t, tx) && RowByRow(tx.payload)
    ensures Reviewed(base58, tx) == CallRows(base58, tx.payload.call, ArgsOf(tx.payload))
  {
    var addr := tx.payload.call.addr;
    assert !IsStaking(tx.payload.call.name);
    Registered(t, tx);
    HomeOf(addr);
    hide Ascii, G.TxOk, Reviewed, IsStaking, TokenRows, NeoRows, WasmRows, GovernanceRows, FindContract;
    if addr == ONT_ADDR || addr == ONG_ADDR {
      TokenReview(t, base58, tx);
    } else if addr == WING_ADDR || addr == MBL_ADDR {
      NeoReview(t, base58, tx);
    } else if addr == STONT_ADDR {
      WasmReview(t, base58, tx);
    } else {
      GovernanceReview(t, base58, tx);
    }
  }

  lemma Registered(t: Target, tx: G.Tx)
    requires G.TxOk(t, tx) && !tx.payload.TransferList?
    ensures FindContract(tx.payload.call.addr, 0).Some?
  {
    hide G.PrintTx, G.PrintPayload, FindContract, FindMethod, G.HeaderOk, G.SizeOk, G.ArgsOk, Ascii;
  }

  // ----- lists of transfers

  /** The rows of a list of transfers. */
  function ListRows(base58: Base58, ts: seq<G.Transfer>, d: nat, unit: string): Option<seq<Shown>> {
    if ts == [] then Some([])
    else
      var s := ts[0];
      Append(Written([Row(From, base58(s.from)), Row(Amount, NumberOf(G.Amt(s.amount), d, unit)),
                      Row(To, base58(s.to))]),
             ListRows(base58, ts[1..], d, unit))
  }

  lemma {:induction false} ListWritten(base58: Base58, info: Info, ts: seq<G.Transfer>)
    requires info.vm == NativeVm && info.decimals <= 39
    ensures AllTransferRows(base58, info, ts) == ListRows(base58, ts, info.decimals, Suffix(info))
    decreases ts
  {
    hide AmountText, G.AmountValue, Suffix;
    if ts != [] {
      TransferWritten(base58, info, ts[0]);
      hide Written, TransferRows;
      ListWritten(base58, info, ts[1..]);
    }
  }

  lemma TransferWritten(base58: Base58, info: Info, s: G.Transfer)
    requires info.vm == NativeVm && info.decimals <= 39
    ensures TransferRows(base58, info, s) ==
            Written([Row(From, base58(s.from)), Row(Amount, NumberOf(G.Amt(s.amount), info.decimals, Suffix(info))),
                     Row(To, base58(s.to))])
  {
    hide AmountText, G.AmountValue, Suffix;
    var amount := NumberOf(G.Amt(s.amount), info.decimals, Suffix(info));
    var w := [Row(From, base58(s.from)), Row(Amount, amount), Row(To, base58(s.to))];
    assert amount == AmountShown(info, s.amount);
    assert w[0].text == base58(s.from) && w[1].text == amount && w[2].text == base58(s.to);
    if TransferRows(base58, info, s).Some? {
      assert Written(w).value == TransferRows(base58, info, s).value;
    }
  }

  /** ONT and ONG, and nine decimals more in transferV2. */
  lemma ListReview(t: Target, base58: Base58, tx: G.Tx)
    requires G.TxOk(t, tx) && tx.payload.TransferList?
    ensures var call, states := tx.payload.call, tx.payload.states;
            var more := if call.name == Ascii("transferV2") then 9 else 0;
            && (call.name == Ascii("transfer") || call.name == Ascii("transferV2"))
            && (call.addr == ONT_ADDR || call.addr == ONG_ADDR)
            && Reviewed(base58, tx) ==
               if states == [] then None
               else if call.addr == ONT_ADDR then ListRows(base58, states, more, " ONT")
               else ListRows(base58, states, 9 + more, " ONG")
  {
    ListUnits(t, tx);
    hide Ascii, G.TxOk, Reviewed, ListRows, InfoOf, Suffix;
    TransfersShown(t, base58, tx);
    NameOf(tx);
    ListWritten(base58, InfoOf(tx), tx.payload.states);
  }

  lemma ListUnits(t: Target, tx: G.Tx)
    requires G.TxOk(t, tx) && tx.payload.TransferList?
    ensures var call := tx.payload.call;
            var more := if call.name == TRANSFER_V2 then 9 else 0;
            && IsTransfer(call.name) && (call.addr == ONT_ADDR || call.addr == ONG_ADDR)
            && if call.addr == ONT_ADDR then Units(tx, more, " ONT") else Units(tx, 9 + more, " ONG")
  {
    hide G.PrintTx, G.PrintPayload, G.SizeOk, G.HeaderOk;
    HomeOf(ONT_ADDR);
    HomeOf(ONG_ADDR);
    assert FindContract(ONT_ADDR, 0) == Some(CONTRACTS[0]);
    assert FindContract(ONG_ADDR, 1) == Some(CONTRACTS[1]);
    NamesDiffer();
    hide Ascii;
    assert " " + "ONT" == " ONT" && " " + "ONG" == " ONG";
  }
}
