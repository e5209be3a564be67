/**
 Well-formed transactions for which a property that might be expected fails, each with its review.
 The exact conditions are in `CompletenessLaws`, `CaptionLaws`, `StakingLaws` and `Review`.
 */
module Counterexamples {
  import opened Options
  import opened Bytes
  import opened TxTypes
  import opened Contracts
  import G = Grammar
  import opened GrammarProofs
  import opened ParserLaws
  import opened Decimal
  import opened StoredFields
  import opened DisplayPlan
  import opened DisplayLaws
  import opened StakingLaws
  import opened Params
  import opened CaptionLaws
  import opened CompletenessLaws
  import opened Review

  // ----- an amount shown as the sender

  /** A native call of a transfer of the NeoVM token WING. */
  function ForeignTransfer(h: G.Header, from: seq<byte>, to: seq<byte>): G.Tx {
    G.Tx(h, G.OneByte, G.NativeCall([G.Amt(G.Push(1)), G.Addr(from), G.Addr(to)], G.Call(WING_ADDR, TRANSFER)))
  }

  lemma WingTransfer()
    ensures Lookup(WING_ADDR, TRANSFER).Some? && Lookup(WING_ADDR, TRANSFER).value.kinds == OEP4_KINDS
    ensures !LivesIn(WING_ADDR, NativeVm) && !IsToken(WING_ADDR) && WING_ADDR != GOV_ADDR && !IsV2(TRANSFER)
    ensures Ticker(WING_ADDR) == "WING"
  {
    assert WING_ADDR[0] == 0x80;
    assert FindContract(WING_ADDR, 3) == Some(CONTRACTS[3]);
    assert FindContract(WING_ADDR, 2) == Some(CONTRACTS[3]);
    assert FindContract(WING_ADDR, 0) == Some(CONTRACTS[3]);
    assert |NEOVM_OEP4_METHODS| == 3 && |NATIVE_TOKEN_METHODS| == 6 && |GOVERNANCE_METHODS| == 10;
    NamesDiffer();
  }

  lemma ForeignTransferOk(t: Target, h: G.Header, from: seq<byte>, to: seq<byte>)
    requires G.HeaderOk(h) && h.txType == 0xd1 && |from| == 20 && |to| == 20
    ensures G.TxOk(t, ForeignTransfer(h, from, to))
  {
    var tx := ForeignTransfer(h, from, to);
    var args := tx.payload.args;
    WingTransfer();
    ThreeArgs(t, args);
    assert |G.PrintArgs(NativeVm, args[1..][1..])| == 24;
    assert |G.PrintArgs(NativeVm, args[1..])| == 48;
    assert |G.PrintArgs(NativeVm, args)| == 52;
    assert |G.PrintTrailer(NativeVm, WING_ADDR)| == 46 && |G.PrintName(TRANSFER)| == 9;
    hide G.PrintArgs, G.PrintTrailer, G.PrintName, Lookup, G.HeaderOk, G.ArgsOk;
    assert |G.PrintPayload(tx.payload)| == 111;
    SmallIsOk(t, tx);
  }

  lemma ThreeArgs(t: Target, args: seq<G.Value>)
    requires |args| == 3 && args[0].Amt? && G.AmountOk(args[0].amount)
    requires args[1].Addr? && |args[1].hash| == 20 && args[2].Addr? && |args[2].hash| == 20
    ensures G.ArgsOk(t, OEP4_KINDS, args, 0)
  {
    var kinds := OEP4_KINDS;
    assert G.ArgsOk(t, kinds[1..][1..][1..], args[1..][1..][1..], 3);
    assert G.ArgsOk(t, kinds[1..][1..], args[1..][1..], 2);
    assert G.ArgsOk(t, kinds[1..], args[1..], 1);
  }

  lemma OneWing()
    ensures AmountText(1, 0) == "1"
  {
    QuotientByOne(1);
    assert Digits(1) == "1";
  }

  /** It is well-formed, and its review shows the amount as the sender and the two addresses as
      amount and receiver. */
  lemma ForeignCallMislabelled(t: Target, base58: Base58, h: G.Header, from: seq<byte>, to: seq<byte>)
    requires G.HeaderOk(h) && h.txType == 0xd1 && |from| == 20 && |to| == 20
    requires base58(from).Some? && base58(to).Some?
    ensures var tx := ForeignTransfer(h, from, to);
            && G.TxOk(t, tx)
            && Reviewed(base58, tx) ==
               Some([Shown(From, "1 WING"), Shown(Amount, base58(to).value), Shown(To, base58(from).value)])
            && !CaptionsHold(tx)
  {
    var tx := ForeignTransfer(h, from, to);
    ForeignTransferOk(t, h, from, to);
    WingTransfer();
    NotStaking(TRANSFER);
    ForeignReview(base58, tx, from, to);
    hide Ascii, Lookup, LivesIn, G.TxOk, CaptionsHold, TextsHold, Reviewed, Configs;
    CaptionsFit(t, base58, tx);
  }

  lemma ForeignFields(base58: Base58, tx: G.Tx, from: seq<byte>, to: seq<byte>)
    requires tx.payload == G.NativeCall([G.Amt(G.Push(1)), G.Addr(from), G.Addr(to)], G.Call(WING_ADDR, TRANSFER))
    ensures var fields := ItemFields(base58, InfoOf(tx), Contents(tx.payload));
            && |fields| == 3 && fields[0].text == Some("1 WING")
            && fields[1].text == base58(from) && fields[2].text == base58(to)
  {
    OneWing();
    ForeignInfo(tx);
    ForeignContents(tx, from, to);
    hide Ascii, InfoOf, ItemField, Contents, AmountText, Suffix;
    var info := InfoOf(tx);
    assert "1" + " WING" == "1 WING";
    AmountItemField(base58, info, G.Push(1));
    AddrItemField(base58, info, from);
    AddrItemField(base58, info, to);
  }

  lemma ForeignReview(base58: Base58, tx: G.Tx, from: seq<byte>, to: seq<byte>)
    requires tx.payload == G.NativeCall([G.Amt(G.Push(1)), G.Addr(from), G.Addr(to)], G.Call(WING_ADDR, TRANSFER))
    requires base58(from).Some? && base58(to).Some?
    ensures Reviewed(base58, tx) ==
            Some([Shown(From, "1 WING"), Shown(Amount, base58(to).value), Shown(To, base58(from).value)])
  {
    ForeignInfo(tx);
    ForeignFields(base58, tx, from, to);
    hide Ascii, ItemFields, Contents, Plan, Block, Blocks, Permuted, InfoOf;
    var fields := ItemFields(base58, InfoOf(tx), Contents(tx.payload));
    TransferPlan(InfoOf(tx), fields);
    TransferBlockOf(fields);
    assert fields[..3] == fields && fields[3..] == [];
    NoBlocks();
    var shown := [Shown(From, "1 WING"), Shown(Amount, base58(to).value), Shown(To, base58(from).value)];
    assert shown + [] == shown;
  }

  lemma NoBlocks()
    requires Permuted(TRANSFER_CONFIGS)
    ensures Blocks(TRANSFER_CONFIGS, []) == Some([])
  {
  }

  lemma ForeignInfo(tx: G.Tx)
    requires tx.payload.NativeCall? && tx.payload.call == G.Call(WING_ADDR, TRANSFER)
    ensures InfoOf(tx) == Info(NativeVm, TRANSFER, "WING", 0) && Suffix(InfoOf(tx)) == " WING"
  {
    WingTransfer();
    NamesDiffer();
    assert WING_ADDR[0] == 0x80;
  }

  lemma ForeignContents(tx: G.Tx, from: seq<byte>, to: seq<byte>)
    requires tx.payload.NativeCall? && tx.payload.args == [G.Amt(G.Push(1)), G.Addr(from), G.Addr(to)]
    ensures Contents(tx.payload) == [AmountItem(G.Push(1)), Item(AddrKind, from), Item(AddrKind, to)]
  {
    hide AmountItem;
    var args := tx.payload.args;
    assert ArgsContents(args[1..][1..]) == [Item(AddrKind, to)];
    assert ArgsContents(args[1..]) == [Item(AddrKind, from), Item(AddrKind, to)];
  }

  // ----- staking calls

  lemma GovernanceLookup(name: seq<byte>)
    requires IsStaking(name)
    ensures Lookup(GOV_ADDR, name).Some? && Lookup(GOV_ADDR, name).value.kinds == [AddrKind, PkAmountPairsKind]
    ensures !IsToken(GOV_ADDR) && |GOV_ADDR| == 20
  {
    assert ONT_ADDR[19] == 1 && ONG_ADDR[19] == 2 && GOV_ADDR[19] == 7;
    assert FindContract(GOV_ADDR, 2) == Some(CONTRACTS[2]);
    assert FindContract(GOV_ADDR, 0) == Some(CONTRACTS[2]);
    GovernanceStakes(name);
  }

  lemma StakeArgs(t: Target, hash: seq<byte>, v: G.Value)
    requires |hash| == 20 && v.Pairs? && G.ValueOk(t, v, 1)
    ensures G.ArgsOk(t, [AddrKind, PkAmountPairsKind], [G.Addr(hash), v], 0)
  {
    var kinds, args := [AddrKind, PkAmountPairsKind], [G.Addr(hash), v];
    assert args[1..] == [v] && kinds[1..] == [PkAmountPairsKind];
    assert G.ArgsOk(t, kinds[1..][1..], args[1..][1..], 1 + G.Width(v));
    assert G.ArgsOk(t, kinds[1..], args[1..], 1);
  }

  lemma StakeArgsSize(vm: Vm, hash: seq<byte>, v: G.Value)
    requires vm != WasmVm && |hash| == 20 && v.Pairs? && G.KeysOk(v.keys)
    ensures |G.PrintArgs(vm, [G.Addr(hash), v])| ==
            21 + 2 * |G.Separator(vm)| + |G.PrintAmount(v.count)| + 3 + 70 * |v.keys| + |G.PrintAmount(v.again)| + 3
            + |G.PrintAmounts(v.amounts)|
  {
    KeysLength(v.keys);
    hide G.PrintAmount, G.PrintAmounts, G.PrintKeys;
    var args := [G.Addr(hash), v];
    assert args[1..] == [v] && args[1..][1..] == [];
    assert G.PrintArgs(vm, args[1..]) == G.PrintPairs(v) + (G.Separator(vm) + []);
  }

  lemma WithdrawStakes()
    ensures IsStaking(WITHDRAW) && StakeLabel(WITHDRAW) == WithdrawAmount && !IsTransfer(WITHDRAW) && |WITHDRAW| == 8
  {
    assert WITHDRAW[0] == 0x77 && AUTHORIZE_FOR_PEER[0] == 0x61 && UNAUTHORIZE_FOR_PEER[0] == 0x75;
    assert TRANSFER[0] == 0x74 && TRANSFER_V2[0] == 0x74;
  }

  // ----- a staking call that shows neither key nor amount

  function OnePeer(key: seq<byte>): G.Value {
    G.Pairs(G.Push(1), [key], G.Push(1), [G.Push(1)])
  }

  /** Withdrawing 1 ONT from one peer, as an NeoVM call. */
  function ForeignStake(h: G.Header, hash: seq<byte>, key: seq<byte>): G.Tx {
    G.Tx(h, G.OneByte, G.NeoCall([G.Addr(hash), OnePeer(key)], G.Push(2), G.Call(GOV_ADDR, WITHDRAW)))
  }

  lemma ForeignStakeOk(t: Target, h: G.Header, hash: seq<byte>, key: seq<byte>)
    requires G.HeaderOk(h) && h.txType == 0xd1 && |hash| == 20 && |key| == 66
    ensures G.TxOk(t, ForeignStake(h, hash, key))
  {
    hide Ascii, G.PrintArgs, Lookup, G.HeaderOk, G.ArgsOk, IsStaking, G.TxOk, G.PrintTx;
    var tx := ForeignStake(h, hash, key);
    WithdrawStakes();
    GovernanceLookup(WITHDRAW);
    StakeArgs(t, hash, OnePeer(key));
    StakeArgsSize(NeoVm, hash, OnePeer(key));
    assert |G.PrintTrailer(NeoVm, GOV_ADDR)| == 21 && |G.PrintName(WITHDRAW)| == 9;
    hide G.PrintTrailer, G.PrintName;
    assert |G.PrintPayload(tx.payload)| == 132;
    SmallIsOk(t, tx);
  }

  /** It is well-formed and stores a key and an amount, and its review is one row. */
  lemma ForeignStakeHidden(t: Target, base58: Base58, h: G.Header, hash: seq<byte>, key: seq<byte>)
    requires G.HeaderOk(h) && h.txType == 0xd1 && |hash| == 20 && |key| == 66 && base58(hash).Some?
    ensures var tx := ForeignStake(h, hash, key);
            && G.TxOk(t, tx)
            && Contents(tx.payload) ==
               [Item(AddrKind, hash), AmountItem(G.Push(1)), Item(PubKeyKind, key), AmountItem(G.Push(1))]
            && Reviewed(base58, tx) == Some([Shown(StakeAddress, base58(hash).value)])
  {
    var tx := ForeignStake(h, hash, key);
    ForeignStakeOk(t, h, hash, key);
    WithdrawStakes();
    hide G.TxOk, Reviewed, IsStaking, AmountItem, Contents;
    StakingShown(t, base58, tx);
    StakeItems(tx);
    assert KeysContents([key]) == [Item(PubKeyKind, key)];
    assert AmountsContents([G.Push(1)]) == [AmountItem(G.Push(1))];
  }

  // ----- a total of 0

  const MAX_WORD: seq<byte> := [0xff, 0xff, 0xff, 0xff, 0xff, 0xff, 0xff, 0xff]
  const WRAPPING: seq<G.Amount> := [G.Prefixed(MAX_WORD), G.Push(1), G.Zero, G.Zero]

  /** Four amounts that sum to 2^64. */
  lemma WrappingSum()
    ensures G.AmountsOk(WRAPPING) && Summable(WRAPPING) && Sum(WRAPPING, 4) == U64
  {
    LargestWord(MAX_WORD);
    Pow256Values();
    hide LeValue;
    assert Sum(WRAPPING, 1) == U64 - 1;
    assert Sum(WRAPPING, 2) == U64;
    assert Sum(WRAPPING, 3) == U64;
  }

  lemma {:induction false} LargestWord(raw: seq<byte>)
    requires forall k :: 0 <= k < |raw| ==> raw[k] == 0xff
    ensures LeValue(raw) == Pow256(|raw|) - 1
  {
    if raw != [] {
      LargestWord(raw[1..]);
    }
  }

  lemma WrappingSize()
    ensures |G.PrintAmounts(WRAPPING)| == 21
  {
    var xs := WRAPPING;
    assert |G.PrintAmounts(xs[1..][1..][1..])| == 1;
    assert |G.PrintAmounts(xs[1..][1..])| == 5;
    assert |G.PrintAmounts(xs[1..])| == 9;
  }

  function FourPeers(key: seq<byte>): G.Value {
    G.Pairs(G.Push(4), [key, key, key, key], G.Push(4), WRAPPING)
  }

  /** Withdrawing those amounts from four peers. */
  function WrappingStake(h: G.Header, hash: seq<byte>, key: seq<byte>): G.Tx {
    G.Tx(h, G.TwoBytes, G.NativeCall([G.Addr(hash), FourPeers(key)], G.Call(GOV_ADDR, WITHDRAW)))
  }

  lemma WrappingStakeOk(t: Target, h: G.Header, hash: seq<byte>, key: seq<byte>)
    requires G.HeaderOk(h) && h.txType == 0xd1 && |hash| == 20 && |key| == 66
    ensures G.TxOk(t, WrappingStake(h, hash, key))
  {
    var tx := WrappingStake(h, hash, key);
    FourPeersOk(t, hash, key);
    hide Ascii, Lookup, G.HeaderOk, G.PrintArgs, G.ArgsOk;
    WithdrawStakes();
    GovernanceLookup(WITHDRAW);
    assert |G.PrintTrailer(NativeVm, GOV_ADDR)| == 46 && |G.PrintName(WITHDRAW)| == 9;
    hide G.PrintTrailer, G.PrintName, FourPeers;
    assert |G.PrintPayload(tx.payload)| == 395;
    SmallIsOk(t, tx);
  }

  lemma FourPeersOk(t: Target, hash: seq<byte>, key: seq<byte>)
    requires |hash| == 20 && |key| == 66
    ensures var args := [G.Addr(hash), FourPeers(key)];
            G.ArgsOk(t, [AddrKind, PkAmountPairsKind], args, 0) && |G.PrintArgs(NativeVm, args)| == 336
  {
    WrappingSum();
    WrappingSize();
    hide G.PrintAmounts, G.AmountsOk, Sum, Summable, G.PrintArgs, G.ArgsOk;
    StakeArgs(t, hash, FourPeers(key));
    StakeArgsSize(NativeVm, hash, FourPeers(key));
  }

  /** It is well-formed, and the last row of its review says 0 ONT. */
  lemma TotalWraps(t: Target, base58: Base58, h: G.Header, hash: seq<byte>, key: seq<byte>)
    requires G.HeaderOk(h) && h.txType == 0xd1 && |hash| == 20 && |key| == 66 && base58(hash).Some?
    ensures var tx := WrappingStake(h, hash, key);
            var shown := Reviewed(base58, tx);
            && G.TxOk(t, tx) && Sum(WRAPPING, 4) == U64
            && shown.Some? && |shown.value| == 6 && shown.value[5] == Shown(Total(WithdrawAmount), "0 ONT")
  {
    var tx := WrappingStake(h, hash, key);
    WrappingStakeOk(t, h, hash, key);
    WithdrawStakes();
    WrappingSum();
    assert StakeIn(tx) == Stake(hash, [key, key, key, key], WRAPPING);
    hide G.TxOk, Reviewed, IsStaking, Sum, Summable, StakeReview, Lookup, InfoOf, StakeIn, Ascii;
    StakingShown(t, base58, tx);
    InfoName(tx);
    GovernanceInfo(tx);
    WrappingReview(base58, InfoOf(tx), StakeIn(tx), Reviewed(base58, tx));
  }

  lemma InfoName(tx: G.Tx)
    ensures InfoOf(tx).name == tx.payload.call.name
  {
  }

  lemma WrappingReview(base58: Base58, info: Info, s: Stake, shown: Option<seq<Shown>>)
    requires |s.keys| == |s.amounts| && s.amounts == WRAPPING && base58(s.hash).Some?
    requires info.name == WITHDRAW && info.ticker == "ONT" && StakeReview(base58, info, s, shown)
    ensures shown.Some? && |shown.value| == 6 && shown.value[5] == Shown(Total(WithdrawAmount), "0 ONT")
  {
    WithdrawStakes();
    WrappingSum();
    hide Sum, Summable, ShowsKeys, ShowsPeers, StakeLabel, Ascii;
    assert Digits(0) + " " + "ONT" == "0 ONT";
  }

  /** The review of that withdrawal is not complete. */
  lemma WrappedNotComplete(t: Target, base58: Base58, h: G.Header, hash: seq<byte>, key: seq<byte>)
    requires G.HeaderOk(h) && h.txType == 0xd1 && |hash| == 20 && |key| == 66 && base58(hash).Some?
    ensures var tx := WrappingStake(h, hash, key);
            Reviewed(base58, tx).Some? && !Complete(base58, tx, Reviewed(base58, tx).value)
  {
    var tx := WrappingStake(h, hash, key);
    TotalWraps(t, base58, h, hash, key);
    WithdrawStakes();
    assert StakeIn(tx) == Stake(hash, [key, key, key, key], WRAPPING);
    hide G.TxOk, Reviewed, IsStaking, Sum, Complete, StakeIn;
    ReviewComplete(t, base58, tx);
  }

  // ----- registerCandidate

  /** Registering with an initial stake of `n`, and a last amount `m`. */
  function Registration(h: G.Header, key: seq<byte>, hash: seq<byte>, id: seq<byte>, n: G.PushNumber,
                        m: G.PushNumber): G.Tx {
    G.Tx(h, G.OneByte, G.NativeCall(
           [G.PubKey(key), G.Addr(hash), G.Amt(G.Push(n)), G.OntId(id), G.Amt(G.Push(m))],
             G.Call(GOV_ADDR, REGISTER_CANDIDATE)))
  }

  lemma RegisterLookup()
    ensures Lookup(GOV_ADDR, REGISTER_CANDIDATE).Some?
    ensures Lookup(GOV_ADDR, REGISTER_CANDIDATE).value.kinds == REGISTER_KINDS
    ensures !IsToken(GOV_ADDR) && |GOV_ADDR| == 20 && !IsStaking(REGISTER_CANDIDATE) && !IsTransfer(REGISTER_CANDIDATE)
  {
    NamesDiffer();
    assert ONT_ADDR[19] == 1 && ONG_ADDR[19] == 2 && GOV_ADDR[19] == 7;
    assert FindContract(GOV_ADDR, 2) == Some(CONTRACTS[2]);
    assert FindContract(GOV_ADDR, 0) == Some(CONTRACTS[2]);
  }

  lemma RegisterArgs(t: Target, args: seq<G.Value>)
    requires |args| == 5 && args[0].PubKey? && |args[0].hex| == 66 && args[1].Addr? && |args[1].hash| == 20
    requires args[2].Amt? && args[2].amount.Push? && args[3].OntId? && |args[3].id| == 42
    requires args[4].Amt? && args[4].amount.Push?
    ensures G.ArgsOk(t, REGISTER_KINDS, args, 0) && |G.PrintArgs(NativeVm, args)| == 148
  {
    var k1, k2, k3, k4 := REGISTER_KINDS[1..], REGISTER_KINDS[2..], REGISTER_KINDS[3..], REGISTER_KINDS[4..];
    var a1, a2, a3, a4 := args[1..], args[2..], args[3..], args[4..];
    assert k1[1..] == k2 && k2[1..] == k3 && k3[1..] == k4 && k4[1..] == [];
    assert a1[1..] == a2 && a2[1..] == a3 && a3[1..] == a4 && a4[1..] == [];
    assert G.ArgsOk(t, [], [], 4);
    assert G.ArgsOk(t, k4, a4, 3) && |G.PrintArgs(NativeVm, a4)| == 4;
    assert G.ArgsOk(t, k3, a3, 3) && |G.PrintArgs(NativeVm, a3)| == 50;
    assert G.ArgsOk(t, k2, a2, 2) && |G.PrintArgs(NativeVm, a2)| == 54;
    assert G.ArgsOk(t, k1, a1, 1) && |G.PrintArgs(NativeVm, a1)| == 78;
  }

  lemma RegistrationOk(t: Target, h: G.Header, key: seq<byte>, hash: seq<byte>, id: seq<byte>, n: G.PushNumber,
                       m: G.PushNumber)
    requires G.HeaderOk(h) && h.txType == 0xd1 && |key| == 66 && |hash| == 20 && |id| == 42
    ensures G.TxOk(t, Registration(h, key, hash, id, n, m))
  {
    var tx := Registration(h, key, hash, id, n, m);
    RegisterLookup();
    RegisterArgs(t, tx.payload.args);
    assert |G.PrintTrailer(NativeVm, GOV_ADDR)| == 46 && |G.PrintName(REGISTER_CANDIDATE)| == 18;
    hide Ascii, G.PrintArgs, G.PrintTrailer, G.PrintName, Lookup, G.HeaderOk, G.ArgsOk;
    assert |G.PrintPayload(tx.payload)| == 216;
    SmallIsOk(t, tx);
  }

  /** Address, key, stake and the fixed fee; the fourth parameter has no row. */
  lemma RegisterPlan(info: Info, fields: seq<Field>)
    requires info.vm == NativeVm && info.name == REGISTER_CANDIDATE && |fields| == 4
    requires fields[0].text.Some? && fields[1].text.Some? && fields[2].text.Some?
    ensures Plan(info, fields) ==
            Some([Shown(StakeAddress, fields[1].text.value), Shown(PeerPubkey, fields[0].text.value),
                  Shown(StakeAmount, fields[2].text.value), Shown(StakeFee, "500 ONG")])
  {
    NamesDiffer();
    assert Configs(info.vm, info.name) == Some(STAKES);
    ConfigsPermuted(info.vm, info.name);
    assert IndexAt(STAKES, 0) == 1 && IndexAt(STAKES, 1) == 0;
    assert STAKES[1..][1..] == STAKES[2..] && IndexAt(STAKES, 2) == 2;
    hide Ascii, Configs, Permuted, IndexAt;
    BlockNone(STAKES, fields);
    hide Block;
    BlockEntry(STAKES, fields, 0);
    BlockEntry(STAKES, fields, 1);
    BlockEntry(STAKES, fields, 2);
    var fee := Shown(StakeFee, "500 ONG");
    assert Block(STAKES, fields).value + [fee] ==
      [Shown(StakeAddress, fields[1].text.value), Shown(PeerPubkey, fields[0].text.value),
       Shown(StakeAmount, fields[2].text.value), fee];
  }

  /** Transactions that differ in their last amount are well-formed and have the same review. */
  lemma RegistrationHides(t: Target, base58: Base58, h: G.Header, key: seq<byte>, hash: seq<byte>, id: seq<byte>,
                          n: G.PushNumber, m: G.PushNumber)
    requires G.HeaderOk(h) && h.txType == 0xd1 && |key| == 66 && |hash| == 20 && |id| == 42 && base58(hash).Some?
    ensures var tx := Registration(h, key, hash, id, n, m);
            && G.TxOk(t, tx)
            && CallParams(tx) == [KeyParam(key), AddrParam(hash), AmountParam(n), AmountParam(m)]
            && Reviewed(base58, tx) ==
               Some([Shown(StakeAddress, base58(hash).value), Shown(PeerPubkey, AsChars(key)),
                     Shown(StakeAmount, AmountText(n, 0) + " ONT"), Shown(StakeFee, "500 ONG")])
            && !Complete(base58, tx, Reviewed(base58, tx).value)
  {
    var tx := Registration(h, key, hash, id, n, m);
    RegistrationOk(t, h, key, hash, id, n, m);
    RegisterLookup();
    RegisterParams(tx);
    RegisterInfo(tx);
    RegisterNotComplete(tx);
    FieldTexts(t, base58, tx);
    hide Ascii, G.TxOk, Contents, ItemFields, CallParams, Plan, IsStaking, Lookup, InfoOf, AmountText, AsChars,
      Complete,
      CompleteWhen, IsTransfer;
    RegisterPlan(InfoOf(tx), ItemFields(base58, InfoOf(tx), Contents(tx.payload)));
    ReviewComplete(t, base58, tx);
  }

  lemma RegisterNotComplete(tx: G.Tx)
    requires tx.payload.NativeCall? && tx.payload.call.name == REGISTER_CANDIDATE
    ensures !CompleteWhen(tx)
  {
    RegisterLookup();
  }

  lemma RegisterParams(tx: G.Tx)
    requires tx.payload.NativeCall? && |tx.payload.args| == 5
    requires tx.payload.args[0].PubKey? && tx.payload.args[1].Addr? && tx.payload.args[2].Amt? &&
             tx.payload.args[3].OntId?
    requires tx.payload.args[4].Amt?
    ensures var args := tx.payload.args;
            CallParams(tx) == [KeyParam(args[0].hex), AddrParam(args[1].hash),
                               AmountParam(G.AmountValue(args[2].amount)),
                               AmountParam(G.AmountValue(args[4].amount))]
  {
    hide G.AmountValue;
    var args := tx.payload.args;
    var a1, a2, a3, a4 := args[1..], args[2..], args[3..], args[4..];
    assert a1[1..] == a2 && a2[1..] == a3 && a3[1..] == a4 && a4[1..] == [];
    assert AllParams(a4) == [AmountParam(G.AmountValue(args[4].amount))];
    assert AllParams(a3) == AllParams(a4);
    assert AllParams(a2) == [AmountParam(G.AmountValue(args[2].amount))] + AllParams(a3);
    assert AllParams(a1) == [AddrParam(args[1].hash)] + AllParams(a2);
  }

  lemma RegisterInfo(tx: G.Tx)
    requires tx.payload.NativeCall? && tx.payload.call == G.Call(GOV_ADDR, REGISTER_CANDIDATE)
    ensures InfoOf(tx) == Info(NativeVm, REGISTER_CANDIDATE, "ONT", 0) && Suffix(InfoOf(tx)) == " ONT"
  {
    NamesDiffer();
    RegisterLookup();
    GovernanceInfo(tx);
    hide Ascii;
  }

  // ----- an amount in the wrong units

  /** Approving 1 unit of ONT with approveV2, natively and as an NeoVM call. */
  function Approval(h: G.Header, from: seq<byte>, to: seq<byte>, native: bool): G.Tx {
    var args, call := [G.Addr(from), G.Addr(to), G.Amt(G.Push(1))], G.Call(ONT_ADDR, APPROVE_V2);
    G.Tx(h, G.OneByte, if native then G.NativeCall(args, call) else G.NeoCall(args, G.Push(3), call))
  }

  lemma ApprovalLookup()
    ensures Lookup(ONT_ADDR, APPROVE_V2).Some? && Lookup(ONT_ADDR, APPROVE_V2).value.kinds == APPROVE_KINDS
    ensures IsToken(ONT_ADDR) && !IsTransfer(APPROVE_V2) && IsV2(APPROVE_V2) && !IsStaking(APPROVE_V2)
    ensures APPROVE_V2 != REGISTER_CANDIDATE && APPROVE_V2 != SET_FEE_PERCENTAGE && ONT_ADDR != ONG_ADDR &&
            ONT_ADDR != GOV_ADDR
    ensures Ticker(ONT_ADDR) == "ONT"
  {
    NamesDiffer();
    assert ONT_ADDR[19] == 1 && ONG_ADDR[19] == 2 && GOV_ADDR[19] == 7;
    assert FindContract(ONT_ADDR, 0) == Some(CONTRACTS[0]);
    assert APPROVE_V2[0] == 0x61 && TRANSFER_FROM_V2[0] == 0x74 && UNAUTHORIZE_FOR_PEER[0] == 0x75;
    hide Ascii;
    assert FindMethod(NATIVE_TOKEN_METHODS, APPROVE_V2, 5) == Some(APPROVE_KINDS);
    assert FindMethod(NATIVE_TOKEN_METHODS, APPROVE_V2, 3) == Some(APPROVE_KINDS);
    assert FindMethod(NATIVE_TOKEN_METHODS, APPROVE_V2, 2) == Some(APPROVE_KINDS);
    assert FindMethod(NATIVE_TOKEN_METHODS, APPROVE_V2, 1) == Some(APPROVE_KINDS);
    assert FindMethod(NATIVE_TOKEN_METHODS, APPROVE_V2, 0) == Some(APPROVE_KINDS);
  }

  lemma ApprovalArgs(t: Target, args: seq<G.Value>)
    requires |args| == 3 && args[0].Addr? && |args[0].hash| == 20 && args[1].Addr? && |args[1].hash| == 20
    requires args[2].Amt? && args[2].amount.Push?
    ensures G.ArgsOk(t, APPROVE_KINDS, args, 0)
  {
    var k1, k2 := APPROVE_KINDS[1..], APPROVE_KINDS[2..];
    var a1, a2 := args[1..], args[2..];
    assert k1[1..] == k2 && k2[1..] == [] && a1[1..] == a2 && a2[1..] == [];
    assert G.ArgsOk(t, [], [], 3);
    assert G.ArgsOk(t, k2, a2, 2);
    assert G.ArgsOk(t, k1, a1, 1);
  }

  lemma ApprovalSize(vm: Vm, args: seq<G.Value>)
    requires vm != WasmVm
    requires |args| == 3 && args[0].Addr? && |args[0].hash| == 20 && args[1].Addr? && |args[1].hash| == 20
    requires args[2].Amt? && args[2].amount.Push?
    ensures |G.PrintArgs(vm, args)| == 43 + 3 * |G.Separator(vm)|
  {
    ArgsSize(vm, args);
    ArgsSize(vm, args[1..]);
    ArgsSize(vm, args[1..][1..]);
    ArgsSize(vm, args[1..][1..][1..]);
    assert |G.PrintValue(vm, args[0])| == 21 == |G.PrintValue(vm, args[1])| && |G.PrintValue(vm, args[2])| == 1;
    hide G.PrintValue, G.PrintArgs;
  }

  lemma ArgsSize(vm: Vm, args: seq<G.Value>)
    ensures |G.PrintArgs(vm, args)| ==
            if args == [] then 0
            else |G.PrintValue(vm, args[0])| + |G.Separator(vm)| + |G.PrintArgs(vm, args[1..])|
  {
  }

  lemma ApprovalOk(t: Target, h: G.Header, from: seq<byte>, to: seq<byte>, native: bool)
    requires G.HeaderOk(h) && h.txType == 0xd1 && |from| == 20 && |to| == 20
    ensures G.TxOk(t, Approval(h, from, to, native))
  {
    var tx := Approval(h, from, to, native);
    ApprovalLookup();
    ApprovalArgs(t, ArgsOf(tx.payload));
    ApprovalSize(if native then NativeVm else NeoVm, ArgsOf(tx.payload));
    assert |G.PrintTrailer(NativeVm, ONT_ADDR)| == 46 && |G.PrintTrailer(NeoVm, ONT_ADDR)| == 21;
    assert |G.PrintName(APPROVE_V2)| == 10;
    hide Ascii, G.PrintArgs, G.PrintTrailer, G.PrintName, Lookup, G.HeaderOk, G.ArgsOk;
    assert |G.PrintPayload(tx.payload)| == if native then 112 else 76;
    SmallIsOk(t, tx);
  }

  lemma OneNano()
    ensures AmountText(1, 9) == "0.000000001"
  {
    assert Pow10(9) == 1_000_000_000;
    assert Quotient(1, 9) == 0 && Remainder(1, 9) == 1;
    assert Digits(0) == "0";
    FixedZero(8);
    FixedStep(1, 9);
    var f := Fixed(1, 9);
    assert f == Zeros(8) + ['1'] == "000000001";
    assert TrimZeros(f) == f;
    assert "0" + ['.'] + "000000001" == "0.000000001";
  }

  /** An approval is shown as one block. */
  lemma ApprovalPlan(info: Info, fields: seq<Field>)
    requires info.vm != WasmVm && info.name == APPROVE_V2 && |fields| == 3
    ensures Permuted(TRANSFER_CONFIGS) && Plan(info, fields) == Block(TRANSFER_CONFIGS, fields)
  {
    TokenPlans(info.vm);
    ApprovalLookup();
    ConfigsPermuted(info.vm, info.name);
    hide Ascii, Configs, Permuted, Block, IsStaking, IsTransfer;
  }

  /** Both are well-formed and mean the same amount; the NeoVM call shows it nine decimals too large. */
  lemma ForeignUnits(t: Target, base58: Base58, h: G.Header, from: seq<byte>, to: seq<byte>, native: bool)
    requires G.HeaderOk(h) && h.txType == 0xd1 && |from| == 20 && |to| == 20
    requires base58(from).Some? && base58(to).Some?
    ensures var tx := Approval(h, from, to, native);
            && G.TxOk(t, tx) && CallParams(tx) == [AddrParam(from), AddrParam(to), AmountParam(1)]
            && Reviewed(base58, tx) ==
               Some([Shown(From, base58(from).value),
                     Shown(Amount, ApprovalText(native)), Shown(To, base58(to).value)])
            && (Complete(base58, tx, Reviewed(base58, tx).value) <==> native)
  {
    var tx := Approval(h, from, to, native);
    ApprovalOk(t, h, from, to, native);
    ApprovalLookup();
    ApprovalParams(tx, from, to);
    ApprovalComplete(tx, native);
    hide Ascii, G.TxOk, CallParams, IsStaking, Lookup, Reviewed, Complete, CompleteWhen, ApprovalText;
    ApprovalReview(t, base58, tx, from, to, native);
    ReviewComplete(t, base58, tx);
  }

  lemma ApprovalShown(info: Info, fields: seq<Field>, from: string, to: string, amount: string)
    requires info.vm != WasmVm && info.name == APPROVE_V2 && |fields| == 3
    requires fields[0].text == Some(from) && fields[1].text == Some(to) && fields[2].text == Some(amount)
    ensures Plan(info, fields) == Some([Shown(From, from), Shown(Amount, amount), Shown(To, to)])
  {
    hide Ascii, Plan, Block;
    ApprovalPlan(info, fields);
    TransferBlockOf(fields);
  }

  function ApprovalText(native: bool): string {
    if native then "0.000000001 ONT" else "1 ONT"
  }

  lemma ApprovalReview(t: Target, base58: Base58, tx: G.Tx, from: seq<byte>, to: seq<byte>, native: bool)
    requires G.TxOk(t, tx) && tx.payload.call == G.Call(ONT_ADDR, APPROVE_V2) && !tx.payload.TransferList?
    requires G.VmOf(tx.payload) == (if native then NativeVm else NeoVm)
    requires CallParams(tx) == [AddrParam(from), AddrParam(to), AmountParam(1)]
    requires base58(from).Some? && base58(to).Some?
    ensures Reviewed(base58, tx) ==
            Some([Shown(From, base58(from).value), Shown(Amount, ApprovalText(native)), Shown(To, base58(to).value)])
  {
    hide Ascii, ApprovalText, G.TxOk, Contents, ItemFields, CallParams, Plan, IsStaking, InfoOf, NumberShown;
    ApprovalLookup();
    ApprovalInfo(tx);
    ApprovalTexts(InfoOf(tx), native);
    FieldTexts(t, base58, tx);
    var fields := ItemFields(base58, InfoOf(tx), Contents(tx.payload));
    ApprovalShown(InfoOf(tx), fields, base58(from).value, base58(to).value, ApprovalText(native));
  }

  lemma ApprovalParams(tx: G.Tx, from: seq<byte>, to: seq<byte>)
    requires ArgsOf(tx.payload) == [G.Addr(from), G.Addr(to), G.Amt(G.Push(1))]
    ensures CallParams(tx) == [AddrParam(from), AddrParam(to), AmountParam(1)]
  {
    var args := ArgsOf(tx.payload);
    assert AllParams(args[1..][1..]) == [AmountParam(1)];
    assert AllParams(args[1..]) == [AddrParam(to), AmountParam(1)];
  }

  lemma ApprovalInfo(tx: G.Tx)
    requires tx.payload.call == G.Call(ONT_ADDR, APPROVE_V2) && G.VmOf(tx.payload) != WasmVm
    ensures var vm := G.VmOf(tx.payload);
            InfoOf(tx) == Info(vm, APPROVE_V2, "ONT", if vm == NativeVm then 9 else 0)
    ensures Suffix(InfoOf(tx)) == " ONT"
  {
    ApprovalLookup();
    assert FindContract(ONT_ADDR, 0) == Some(CONTRACTS[0]);
    hide Ascii, IsV2, IsToken;
  }

  lemma ApprovalTexts(info: Info, native: bool)
    requires info.decimals == (if native then 9 else 0) && Suffix(info) == " ONT"
    ensures NumberShown(info, 1) == Some(ApprovalText(native))
  {
    if native {
      OneNano();
      hide AmountText, Suffix;
      assert "0.000000001" + " ONT" == "0.000000001 ONT";
    } else {
      OneWing();
      hide AmountText, Suffix;
      assert "1" + " ONT" == "1 ONT";
    }
  }

  lemma ApprovalComplete(tx: G.Tx, native: bool)
    requires tx.payload.call == G.Call(ONT_ADDR, APPROVE_V2) && !tx.payload.TransferList?
    requires G.VmOf(tx.payload) == (if native then NativeVm else NeoVm)
    requires |CallParams(tx)| == 3 && CallParams(tx)[2] == AmountParam(1)
    ensures CompleteWhen(tx) <==> native
  {
    ApprovalLookup();
    Homes(ONT_ADDR);
    TokenTable(ONT_ADDR);
    hide LivesIn, IsV2, IsStaking, CallParams, Ascii;
    assert IsNumber(CallParams(tx)[2]);
  }

  // ----- a fee that runs into the signer

  const LARGE_FEE: nat := 100_000_001_507

  /** A transfer at a fee of 100.000001507 ONG is well-formed, and its fee row is not the fee. */
  lemma LargeFeeRunsOn(t: Target, nonce: nat, payer: seq<byte>, from: seq<byte>, to: seq<byte>, signer: string)
    requires nonce < U32 && |payer| == 20 && |from| == 20 && |to| == 20 && |signer| >= 8
    ensures var tx := OneTransfer(G.Header(0xd1, nonce, 2501, 39_984_007, payer), from, to, 1);
            && G.TxOk(t, tx) && G.Fee(tx.header) == LARGE_FEE
            && Closing(tx.header, signer)[0].text != FeeText(tx.header)
  {
    var h := G.Header(0xd1, nonce, 2501, 39_984_007, payer);
    TimesIsProduct(2501, 39_984_007);
    hide G.Fee, Times, G.TxOk, Closing, FeeText;
    assert G.HeaderOk(h);
    LargeFeeZeros(h);
    OneTransferAccepted(t, h, from, to, 1);
    FeeShownExactly(h, signer);
  }

  lemma LargeFeeZeros(h: G.Header)
    requires G.Fee(h) == LARGE_FEE
    ensures G.Fee(h) % Pow10(ZerosNeeded(h)) != 0
  {
    hide G.Fee;
    assert Pow10(9) == 1_000_000_000 && Pow10(1) == 10;
    assert Quotient(LARGE_FEE, 9) == 100;
    assert |Digits(100)| == 3;
  }
}
