/**
 Which reviews show all of a transaction's parameters, each as what it means, over all well-formed
 transactions; and that such a review determines the parameters.
 */
module CompletenessLaws {
  import opened Options
  import opened Bytes
  import opened TxTypes
  import opened Contracts
  import G = Grammar
  import opened Decimal
  import opened StoredFields
  import opened DisplayPlan
  import opened DisplayLaws
  import opened Params
  import opened StakingLaws
  import opened CaptionLaws

  // ----- decimals

  /** The call with the amounts in the units of its token. */
  function TokenInfo(tx: G.Tx): Info {
    InfoOf(tx).(decimals := TokenDecimals(tx.payload.call.addr, tx.payload.call.name))
  }

  /** A registered call has fitting captions and the token's decimals if and only if the contract is
      in its own virtual machine or is the governance contract. */
  lemma DecimalsRight(addr: seq<byte>, name: seq<byte>, vm: Vm)
    requires Lookup(addr, name).Some?
    ensures Faithful(addr, name, vm) && Decimals(vm, addr, name) == TokenDecimals(addr, name) <==>
            LivesIn(addr, vm) || addr == GOV_ADDR
    ensures IsV2(name) && !LivesIn(addr, vm) && addr != GOV_ADDR ==>
              TokenDecimals(addr, name) == Decimals(vm, addr, name) + 9 <= 18
  {
    TokenTable(addr);
    Homes(addr);
    if IsV2(name) {
      NoOtherV2(addr, name);
    }
    hide LivesIn, IsV2;
  }

  /** What the tables say about decimals. */
  lemma TokenTable(addr: seq<byte>)
    requires FindContract(addr, 0).Some?
    ensures var c := FindContract(addr, 0).value;
            && (c.methods == NATIVE_TOKEN_METHODS <==> IsToken(addr))
            && (IsToken(addr) ==> c.decimals == if addr == ONG_ADDR then 9 else 0)
            && (addr == GOV_ADDR ==> c.decimals == 0) && c.decimals <= 9
            && ONG_ADDR != GOV_ADDR && !IsToken(GOV_ADDR)
  {
    ContractFound(addr, 0);
    assert |NATIVE_TOKEN_METHODS| == 6 && |NEOVM_OEP4_METHODS| == 3 && |WASMVM_OEP4_METHODS| == 3 &&
      |GOVERNANCE_METHODS| == 10;
    assert WING_ADDR[0] == 0x80 && MBL_ADDR[0] == 0x6d && STONT_ADDR[0] == 0xcd;
    assert ONT_ADDR[19] == 1 && ONG_ADDR[19] == 2 && GOV_ADDR[19] == 7;
    hide Ascii;
  }

  /** Only the native tokens have V2 methods. */
  lemma NoOtherV2(addr: seq<byte>, name: seq<byte>)
    requires Lookup(addr, name).Some? && IsV2(name)
    ensures FindContract(addr, 0).value.methods == NATIVE_TOKEN_METHODS
  {
    var methods, kinds := FindContract(addr, 0).value.methods, Lookup(addr, name).value.kinds;
    MethodFound(methods, name, 0);
    Homes(addr);
    hide LivesIn, FindContract, FindMethod;
    if methods == NEOVM_OEP4_METHODS {
      NeoTable(name, kinds, NeoVm);
    } else if methods == WASMVM_OEP4_METHODS {
      WasmTable(name, kinds, WasmVm);
    } else if methods == GOVERNANCE_METHODS {
      NoGovernanceV2();
    }
  }

  lemma NoGovernanceV2()
    ensures forall j :: 0 <= j < |GOVERNANCE_METHODS| ==> !IsV2(GOVERNANCE_METHODS[j].name)
  {
    NamesDiffer();
    assert APPROVE_V2[0] == 0x61 && TRANSFER_FROM_V2[0] == 0x74 && TRANSFER_V2[0] == 0x74;
    assert REGISTER_CANDIDATE[0] == 0x72 && REDUCE_INIT_POS[0] == 0x72 && CHANGE_MAX_AUTH[0] == 0x63;
    assert UNAUTHORIZE_FOR_PEER[0] == 0x75 && WITHDRAW_FEE[0] == 0x77;
  }

  predicate IsNumber(p: Param) {
    p.AmountParam? || p.WordParam?
  }

  /** The call passes no number but 0, which is written the same in all units. */
  predicate ZeroNumbers(tx: G.Tx) {
    var ps := CallParams(tx);
    forall i :: 0 <= i < |ps| && IsNumber(ps[i]) ==> ps[i].value == 0
  }

  /** Text read with more decimals is a larger number. */
  lemma ReadScaled(s: string, p: nat, v: nat)
    requires ReadText(s, p) == Some(v)
    ensures ReadText(s, p + 9) == Some(1_000_000_000 * v)
  {
    var w, f, n := Number(Whole(s)), Number(Fraction(s)), p - |Fraction(s)|;
    Pow10Nine(p);
    Pow10Nine(n);
    hide Number, Pow10, Whole, Fraction;
    Regroup9(w, Pow10(p));
    Regroup9(f, Pow10(n));
  }

  lemma Pow10Nine(n: nat)
    ensures Pow10(n + 9) == 1_000_000_000 * Pow10(n)
  {
    Pow10Three(n);
    Pow10Three(n + 3);
    Pow10Three(n + 6);
    hide Pow10;
  }

  lemma Pow10Three(n: nat)
    ensures Pow10(n + 3) == 1000 * Pow10(n)
  {
    Pow10Step(n + 3);
    Pow10Step(n + 2);
    Pow10Step(n + 1);
    hide Pow10;
  }

  lemma Regroup9(x: nat, p: nat)
    ensures x * (1_000_000_000 * p) == 1_000_000_000 * (x * p)
  {
  }

  /** Only 0 reads the same with nine decimals more. */
  lemma ReadSame(s: string, p: nat, v: nat)
    requires ReadText(s, p) == Some(v) && ReadText(s, p + 9) == Some(v)
    ensures v == 0
  {
    hide ReadText;
    ReadScaled(s, p, v);
  }

  lemma ZeroText(p: nat)
    ensures AmountText(0, p) == AmountText(0, p + 9)
  {
    hide AmountText, ReadText, Canonical;
    AmountTextExact(0, p);
    ReadScaled(AmountText(0, p), p, 0);
    AmountTextUnique(AmountText(0, p), 0, p + 9);
  }

  /** Nine decimals more or fewer change the text of every number but 0. */
  lemma ScaleMatters(v: nat, p: nat)
    ensures AmountText(v, p) == AmountText(v, p + 9) <==> v == 0
  {
    hide AmountText, ReadText, Canonical;
    if v == 0 {
      ZeroText(p);
    }
    if AmountText(v, p) == AmountText(v, p + 9) {
      AmountTextExact(v, p);
      AmountTextExact(v, p + 9);
      ReadSame(AmountText(v, p), p, v);
    }
  }

  lemma Rescaled(base58: Base58, info: Info, p: Param)
    requires info.decimals + 9 <= 39 && ParamShown(base58, info, p).Some?
    ensures var more := info.(decimals := info.decimals + 9);
            ParamShown(base58, more, p) == ParamShown(base58, info, p) <==> (IsNumber(p) ==> p.value == 0)
  {
    hide AmountText;
    if IsNumber(p) {
      var more := info.(decimals := info.decimals + 9);
      assert Suffix(more) == Suffix(info);
      ScaleMatters(p.value, info.decimals);
      SamePrefix(AmountText(p.value, info.decimals), AmountText(p.value, info.decimals + 9), Suffix(info));
      hide Suffix;
    }
  }

  // ----- complete reviews

  /** The rows show every transfer; or the stake with its true total; or every stored parameter under a
      caption of its kind. Amounts are in units of the token. */
  predicate Complete(base58: Base58, tx: G.Tx, rows: seq<Shown>) {
    if tx.payload.TransferList? then AllTransferRows(base58, TokenInfo(tx), tx.payload.states) == Some(rows)
    else if IsStaking(tx.payload.call.name) then
      Stakes(tx) && WholeStake(base58, TokenInfo(tx), StakeIn(tx), rows)
    else
      && CaptionsHold(tx) && TextsHold(base58, TokenInfo(tx), tx, rows)
      && |PlanOf(tx).value| == |CallParams(tx)|
  }

  /** When they do: something the host can tell from the transaction. */
  predicate CompleteWhen(tx: G.Tx) {
    var call := tx.payload.call;
    if tx.payload.TransferList? then true
    else if IsStaking(call.name) then tx.payload.NativeCall? && Stakes(tx) && TotalFits(StakeIn(tx))
    else
      && call.name != REGISTER_CANDIDATE
      && (|| LivesIn(call.addr, G.VmOf(tx.payload)) || call.addr == GOV_ADDR
          || (IsV2(call.name) && ZeroNumbers(tx)))
  }

  /** Over all well-formed transactions with a review: it is complete if and only if the transaction is
      a list of transfers; or a native staking call whose total, if it is shown, fits in 64 bits; or
      another call than registerCandidate, of a contract in its own virtual machine, of the governance
      contract, or of a V2 method with amount 0. */
  lemma ReviewComplete(t: Target, base58: Base58, tx: G.Tx)
    requires G.TxOk(t, tx) && Reviewed(base58, tx).Some?
    ensures Complete(base58, tx, Reviewed(base58, tx).value) <==> CompleteWhen(tx)
  {
    hide G.TxOk, Reviewed, IsStaking, WholeStake, StakeIn, AllTransferRows, TotalFits, InfoOf, TokenInfo, TextsHold,
      CaptionsHold, PlanOf, CallParams, LivesIn, IsV2, ZeroNumbers;
    if tx.payload.TransferList? {
      TransfersShown(t, base58, tx);
      SameUnits(t, tx);
    } else if IsStaking(tx.payload.call.name) {
      StakeShownInFull(t, base58, tx);
      StakeOf(t, tx);
      SameUnits(t, tx);
    } else {
      CallComplete(t, base58, tx);
    }
  }

  /** Lists of transfers, staking calls, and calls of a contract at home are shown in units of the
      token. */
  lemma SameUnits(t: Target, tx: G.Tx)
    requires G.TxOk(t, tx)
    requires var call := tx.payload.call;
             tx.payload.TransferList? || call.addr == GOV_ADDR || LivesIn(call.addr, G.VmOf(tx.payload))
    ensures TokenInfo(tx) == InfoOf(tx)
  {
    hide G.PrintTx, G.PrintPayload, G.SizeOk, G.ArgsOk, Lookup;
    var call := tx.payload.call;
    if tx.payload.TransferList? {
      TransfersRegistered(call.addr, call.name);
      TokenTable(call.addr);
    } else {
      CallArgs(t, tx);
      DecimalsRight(call.addr, call.name, G.VmOf(tx.payload));
    }
  }

  /** The texts hold in units of the token if and only if these are the units shown, or the numbers
      are 0. */
  lemma CallComplete(t: Target, base58: Base58, tx: G.Tx)
    requires G.TxOk(t, tx) && !tx.payload.TransferList? && !IsStaking(tx.payload.call.name)
    requires Reviewed(base58, tx).Some?
    ensures Complete(base58, tx, Reviewed(base58, tx).value) <==> CompleteWhen(tx)
  {
    hide G.TxOk, Reviewed, IsStaking, CallParams, Configs, LivesIn, IsV2, ZeroNumbers, Lookup, CaptionsHold, TextsHold,
      Decimals, TokenDecimals, Ticker, WholeStake, TotalFits;
    var call, vm := tx.payload.call, G.VmOf(tx.payload);
    CallArgs(t, tx);
    CaptionsFit(t, base58, tx);
    DecimalsRight(call.addr, call.name, vm);
    if Faithful(call.addr, call.name, vm) && call.name != REGISTER_CANDIDATE
       && !LivesIn(call.addr, vm) && call.addr != GOV_ADDR
    {
      ForeignV2(base58, tx, Reviewed(base58, tx).value);
    }
  }

  lemma ForeignV2(base58: Base58, tx: G.Tx, rows: seq<Shown>)
    requires TextsHold(base58, InfoOf(tx), tx, rows) && |PlanOf(tx).value| == |CallParams(tx)|
    requires TokenInfo(tx).decimals == InfoOf(tx).decimals + 9 <= 18
    ensures TextsHold(base58, TokenInfo(tx), tx, rows) <==> ZeroNumbers(tx)
  {
    hide InfoOf, PlanOf, CallParams, ParamShown;
    var c, ps, info, more := PlanOf(tx).value, CallParams(tx), InfoOf(tx), TokenInfo(tx);
    forall i | 0 <= i < |c|
      ensures ShownAt(rows, c[i], ParamShown(base58, info, ps[i]))
      ensures ShownAt(rows, c[i], ParamShown(base58, more, ps[i])) <==> (IsNumber(ps[i]) ==> ps[i].value == 0)
    {
      Rescaled(base58, info, ps[i]);
    }
  }

  // ----- a review determines the parameters

  /** No two script hashes have the same Base58Check address. */
  ghost predicate Injective(base58: Base58) {
    forall x, y :: base58(x).Some? && base58(x) == base58(y) ==> x == y
  }

  lemma NumberDetermined(info: Info, v: nat, w: nat)
    requires NumberShown(info, v).Some? && NumberShown(info, v) == NumberShown(info, w)
    ensures v == w
  {
    hide AmountText, ReadText, Canonical;
    SamePrefix(AmountText(v, info.decimals), AmountText(w, info.decimals), Suffix(info));
    AmountTextExact(v, info.decimals);
    AmountTextExact(w, info.decimals);
  }

  lemma CharsDetermined(x: seq<byte>, y: seq<byte>)
    requires AsChars(x) == AsChars(y)
    ensures x == y
  {
    assert forall i :: 0 <= i < |x| ==> x[i] == AsChars(x)[i] as int == AsChars(y)[i] as int == y[i];
  }

  lemma ParamDetermined(base58: Base58, info: Info, p: Param, q: Param)
    requires Injective(base58) && KindOfParam(p) == KindOfParam(q)
    requires ParamShown(base58, info, p).Some? && ParamShown(base58, info, p) == ParamShown(base58, info, q)
    ensures p == q
  {
    hide NumberShown, AsChars;
    match p
    case AddrParam(_) =>
    case KeyParam(hex) => CharsDetermined(hex, q.hex);
    case AmountParam(value) => NumberDetermined(info, value, q.value);
    case WordParam(value) => NumberDetermined(info, value, q.value);
  }

  /** The same transfer, however the amount is encoded. */
  predicate SameTransfer(s: G.Transfer, u: G.Transfer) {
    s.from == u.from && s.to == u.to && G.AmountValue(s.amount) == G.AmountValue(u.amount)
  }

  predicate SameTransfers(ts: seq<G.Transfer>, us: seq<G.Transfer>) {
    |ts| == |us| && forall i :: 0 <= i < |ts| ==> SameTransfer(ts[i], us[i])
  }

  lemma AmountDetermined(info: Info, a: G.Amount, b: G.Amount)
    requires AmountShown(info, a).Some? && AmountShown(info, a) == AmountShown(info, b)
    ensures G.AmountValue(a) == G.AmountValue(b)
  {
    hide AmountText;
    NumberDetermined(info, G.AmountValue(a), G.AmountValue(b));
  }

  lemma TransferDetermined(base58: Base58, info: Info, s: G.Transfer, u: G.Transfer)
    requires Injective(base58)
    requires TransferRows(base58, info, s).Some? && TransferRows(base58, info, s) == TransferRows(base58, info, u)
    ensures SameTransfer(s, u)
  {
    hide AmountShown, G.AmountValue;
    var x, y := TransferRows(base58, info, s).value, TransferRows(base58, info, u).value;
    assert x[0] == y[0] && x[1] == y[1] && x[2] == y[2];
    AmountDetermined(info, s.amount, u.amount);
  }

  lemma {:induction false} TransfersDetermined(base58: Base58, info: Info, ts: seq<G.Transfer>, us: seq<G.Transfer>)
    requires Injective(base58)
    requires AllTransferRows(base58, info, ts).Some? &&
             AllTransferRows(base58, info, ts) == AllTransferRows(base58, info, us)
    ensures SameTransfers(ts, us)
    decreases ts
  {
    RowsLength(base58, info, ts);
    RowsLength(base58, info, us);
    hide TransferRows, SameTransfer, Injective;
    if ts != [] {
      var x, y := TransferRows(base58, info, ts[0]), TransferRows(base58, info, us[0]);
      ThreeRows(base58, info, ts[0]);
      ThreeRows(base58, info, us[0]);
      var p, q := AllTransferRows(base58, info, ts[1..]).value, AllTransferRows(base58, info, us[1..]).value;
      assert x.value + p == y.value + q;
      assert (x.value + p)[..3] == x.value && (y.value + q)[..3] == y.value;
      assert (x.value + p)[3..] == p && (y.value + q)[3..] == q;
      TransferDetermined(base58, info, ts[0], us[0]);
      TransfersDetermined(base58, info, ts[1..], us[1..]);
    }
  }

  lemma ThreeRows(base58: Base58, info: Info, s: G.Transfer)
    ensures var r := TransferRows(base58, info, s); r.Some? ==> |r.value| == 3
  {
  }

  lemma CallDetermined(t: Target, base58: Base58, tx: G.Tx, other: G.Tx, rows: seq<Shown>)
    requires Injective(base58) && G.TxOk(t, tx) && G.TxOk(t, other)
    requires !tx.payload.TransferList? && !other.payload.TransferList? && !IsStaking(tx.payload.call.name)
    requires tx.payload.call == other.payload.call && G.VmOf(tx.payload) == G.VmOf(other.payload)
    requires TextsHold(base58, InfoOf(tx), tx, rows) && TextsHold(base58, InfoOf(other), other, rows)
    requires |PlanOf(tx).value| == |CallParams(tx)|
    ensures CallParams(tx) == CallParams(other)
  {
    hide G.TxOk, CallParams, IsStaking, Contents, AllStored, Lookup, Injective, Configs, ParamShown, Faithful, HasLists,
      SigIf;
    CallStored(t, tx);
    CallStored(t, other);
    var c, ps, qs, info := PlanOf(tx).value, CallParams(tx), CallParams(other), InfoOf(tx);
    assert AllMean(base58, info, Contents(tx.payload), ps) && AllMean(base58, info, Contents(other.payload), qs);
    assert |KindsOf(Contents(tx.payload))| == |KindsOf(Contents(other.payload))|;
    forall i | 0 <= i < |ps|
      ensures ps[i] == qs[i]
    {
      assert Means(base58, info, Contents(tx.payload)[i], ps[i]);
      assert Means(base58, info, Contents(other.payload)[i], qs[i]);
      assert KindsOf(Contents(tx.payload))[i] == KindsOf(Contents(other.payload))[i];
      assert ShownAt(rows, c[i], ParamShown(base58, info, ps[i])) &&
        ShownAt(rows, c[i], ParamShown(base58, info, qs[i]));
      ParamDetermined(base58, info, ps[i], qs[i]);
    }
  }

  /** The same stake, however the amounts are encoded. */
  predicate SameStake(s: Stake, u: Stake) {
    && s.hash == u.hash && s.keys == u.keys && |s.amounts| == |u.amounts|
    && forall i :: 0 <= i < |s.amounts| ==> G.AmountValue(s.amounts[i]) == G.AmountValue(u.amounts[i])
  }

  lemma PeersDetermined(base58: Base58, info: Info, s: Stake, total: nat, u: Stake, other: nat, rows: seq<Shown>)
    requires Injective(base58) && |s.keys| == |s.amounts| && |u.keys| == |u.amounts|
    requires |s.keys| <= MAX_PUBKEY_DISPLAY && StakeRows(base58, info, s, total, rows)
    requires StakeRows(base58, info, u, other, rows)
    ensures SameStake(s, u)
  {
    hide AsChars, AmountShown, G.AmountValue, Counted, StakeLabel, ShowsKeys;
    assert |u.keys| == |s.keys|;
    forall i | 0 <= i < |s.keys|
      ensures s.keys[i] == u.keys[i] && G.AmountValue(s.amounts[i]) == G.AmountValue(u.amounts[i])
    {
      assert rows[1..][2 * i].text == AsChars(s.keys[i]) == AsChars(u.keys[i]);
      CharsDetermined(s.keys[i], u.keys[i]);
      assert AmountShown(info, s.amounts[i]) == AmountShown(info, u.amounts[i]);
      AmountDetermined(info, s.amounts[i], u.amounts[i]);
    }
  }

  lemma SameInfo(tx: G.Tx, other: G.Tx)
    requires tx.payload.call == other.payload.call && G.VmOf(tx.payload) == G.VmOf(other.payload)
    ensures InfoOf(tx) == InfoOf(other)
  {
  }

  /** What two transactions with the same call and review have in common. */
  predicate SameParameters(tx: G.Tx, other: G.Tx) {
    if tx.payload.TransferList? then
      other.payload.TransferList? && SameTransfers(tx.payload.states, other.payload.states)
    else if IsStaking(tx.payload.call.name) then Stakes(tx) && Stakes(other) && SameStake(StakeIn(tx), StakeIn(other))
    else CallParams(tx) == CallParams(other)
  }

  /** A review has a row for every parameter: of every list of transfers, of native staking calls with up
      to three peers, and of all other calls but registerCandidate. */
  predicate Determined(tx: G.Tx) {
    if tx.payload.TransferList? then true
    else if IsStaking(tx.payload.call.name) then
      tx.payload.NativeCall? && Stakes(tx) && |StakeIn(tx).keys| <= MAX_PUBKEY_DISPLAY
    else tx.payload.call.name != REGISTER_CANDIDATE
  }

  /** Then the review determines the parameters: two such transactions of the same method with the same
      review differ at most in how they encode amounts. */
  lemma ReviewDetermines(t: Target, base58: Base58, tx: G.Tx, other: G.Tx)
    requires Injective(base58) && G.TxOk(t, tx) && G.TxOk(t, other) && Determined(tx)
    requires tx.payload.call == other.payload.call && G.VmOf(tx.payload) == G.VmOf(other.payload)
    requires Reviewed(base58, tx).Some? && Reviewed(base58, tx) == Reviewed(base58, other)
    ensures SameParameters(tx, other)
  {
    SameForm(t, tx, other);
    hide G.TxOk, Reviewed, IsStaking, StakeIn, AllTransferRows, InfoOf, TextsHold, CaptionsHold, PlanOf, CallParams,
      Injective, StakeRows, SameTransfers, SameStake, Sum, Faithful, G.VmOf;
    SameInfo(tx, other);
    var rows := Reviewed(base58, tx).value;
    if tx.payload.TransferList? {
      TransfersShown(t, base58, tx);
      TransfersShown(t, base58, other);
      TransfersDetermined(base58, InfoOf(tx), tx.payload.states, other.payload.states);
    } else if IsStaking(tx.payload.call.name) {
      StakingShown(t, base58, tx);
      StakingShown(t, base58, other);
      var s, u := StakeIn(tx), StakeIn(other);
      PeersDetermined(base58, InfoOf(tx), s, Sum(s.amounts, |s.amounts|) % U64, u,
                      Sum(u.amounts, |u.amounts|) % U64, rows);
    } else {
      CaptionsFit(t, base58, tx);
      CaptionsFit(t, base58, other);
      CallDetermined(t, base58, tx, other, rows);
    }
  }

  lemma SameForm(t: Target, tx: G.Tx, other: G.Tx)
    requires G.TxOk(t, tx) && G.TxOk(t, other)
    requires tx.payload.call == other.payload.call && G.VmOf(tx.payload) == G.VmOf(other.payload)
    ensures tx.payload.TransferList? == other.payload.TransferList? &&
            tx.payload.NativeCall? == other.payload.NativeCall?
  {
    hide G.PrintTx, G.PrintPayload, G.SizeOk, G.ArgsOk, Lookup, IsToken, IsTransfer, G.HeaderOk;
  }
}
