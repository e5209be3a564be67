/** The registered contracts and methods (src/transaction/contract.c and contract.h). */
module Contracts {
  import opened Options
  import opened Bytes
  import opened TxTypes

  /** The bytes of a C string literal. */
  function Ascii(s: string): (bs: seq<byte>)
    ensures |bs| == |s|
    ensures forall k :: 0 <= k < |bs| ==> bs[k] < 0x80
  {
    seq(|s|, i requires 0 <= i < |s| => if s[i] < '\U{80}' then s[i] as int else 0x3f)
  }

  datatype MethodSig = MethodSig(name: seq<byte>, kinds: seq<ParamKind>)
  datatype Contract = Contract(addr: seq<byte>, decimals: nat, ticker: string, methods: seq<MethodSig>)

  const TRANSFER: seq<byte> := Ascii("transfer")
  const TRANSFER_FROM: seq<byte> := Ascii("transferFrom")
  const APPROVE: seq<byte> := Ascii("approve")
  const TRANSFER_V2: seq<byte> := Ascii("transferV2")
  const TRANSFER_FROM_V2: seq<byte> := Ascii("transferFromV2")
  const APPROVE_V2: seq<byte> := Ascii("approveV2")
  const REGISTER_CANDIDATE: seq<byte> := Ascii("registerCandidate")
  const QUIT_NODE: seq<byte> := Ascii("quitNode")
  const ADD_INIT_POS: seq<byte> := Ascii("addInitPos")
  const REDUCE_INIT_POS: seq<byte> := Ascii("reduceInitPos")
  const CHANGE_MAX_AUTH: seq<byte> := Ascii("changeMaxAuthorization")
  const SET_FEE_PERCENTAGE: seq<byte> := Ascii("setFeePercentage")
  const AUTHORIZE_FOR_PEER: seq<byte> := Ascii("authorizeForPeer")
  const UNAUTHORIZE_FOR_PEER: seq<byte> := Ascii("unAuthorizeForPeer")
  const WITHDRAW: seq<byte> := Ascii("withdraw")
  const WITHDRAW_FEE: seq<byte> := Ascii("withdrawFee")

  const ONT_ADDR: seq<byte> := [0, 0, 0, 0, 0, 0, 0, 0, 0, 0, 0, 0, 0, 0, 0, 0, 0, 0, 0, 1]
  const ONG_ADDR: seq<byte> := [0, 0, 0, 0, 0, 0, 0, 0, 0, 0, 0, 0, 0, 0, 0, 0, 0, 0, 0, 2]
  const GOV_ADDR: seq<byte> := [0, 0, 0, 0, 0, 0, 0, 0, 0, 0, 0, 0, 0, 0, 0, 0, 0, 0, 0, 7]
  const WING_ADDR: seq<byte> :=
    [0x80, 0xef, 0x58, 0x6e, 0xf5, 0xff, 0xf2, 0xb1, 0xea, 0x83,
     0x78, 0x39, 0xd6, 0x62, 0xa5, 0x27, 0xcd, 0x9f, 0xc5, 0x00]
  const STONT_ADDR: seq<byte> :=
    [0xcd, 0x84, 0x1f, 0xf2, 0x17, 0xc6, 0x8d, 0xc2, 0xfa, 0xf8,
     0x10, 0x63, 0x68, 0xc5, 0x57, 0x7b, 0x12, 0x04, 0xec, 0xe9]
  const MBL_ADDR: seq<byte> :=
    [0x6d, 0x03, 0xa1, 0x68, 0x43, 0xe6, 0x1e, 0x5d, 0x96, 0xd3,
     0x89, 0xe1, 0x78, 0x71, 0x7e, 0xd5, 0x7f, 0x9d, 0xa4, 0xe5]

  const NATIVE_TOKEN_METHODS: seq<MethodSig> := [
    MethodSig(TRANSFER, [TransferStateListKind]),
    MethodSig(TRANSFER_FROM, [AddrKind, TransferStateKind]),
    MethodSig(APPROVE, [AddrKind, AddrKind, AmountKind]),
    MethodSig(TRANSFER_V2, [TransferStateListKind]),
    MethodSig(TRANSFER_FROM_V2, [AddrKind, TransferStateKind]),
    MethodSig(APPROVE_V2, [AddrKind, AddrKind, AmountKind])
  ]

  const NEOVM_OEP4_METHODS: seq<MethodSig> := [
    MethodSig(TRANSFER, [AmountKind, AddrKind, AddrKind]),
    MethodSig(TRANSFER_FROM, [AmountKind, AddrKind, AddrKind, AddrKind]),
    MethodSig(APPROVE, [AmountKind, AddrKind, AddrKind])
  ]

  const WASMVM_OEP4_METHODS: seq<MethodSig> := [
    MethodSig(TRANSFER, [AddrKind, AddrKind, Uint128Kind]),
    MethodSig(TRANSFER_FROM, [AddrKind, AddrKind, AddrKind, Uint128Kind]),
    MethodSig(APPROVE, [AddrKind, AddrKind, Uint128Kind])
  ]

  const GOVERNANCE_METHODS: seq<MethodSig> := [
    MethodSig(REGISTER_CANDIDATE, [PubKeyKind, AddrKind, AmountKind, OntIdKind, AmountKind]),
    MethodSig(QUIT_NODE, [PubKeyKind, AddrKind]),
    MethodSig(ADD_INIT_POS, [PubKeyKind, AddrKind, AmountKind]),
    MethodSig(REDUCE_INIT_POS, [PubKeyKind, AddrKind, AmountKind]),
    MethodSig(CHANGE_MAX_AUTH, [PubKeyKind, AddrKind, AmountKind]),
    MethodSig(SET_FEE_PERCENTAGE, [PubKeyKind, AddrKind, AmountKind, AmountKind]),
    MethodSig(AUTHORIZE_FOR_PEER, [AddrKind, PkAmountPairsKind]),
    MethodSig(UNAUTHORIZE_FOR_PEER, [AddrKind, PkAmountPairsKind]),
    MethodSig(WITHDRAW, [AddrKind, PkAmountPairsKind]),
    MethodSig(WITHDRAW_FEE, [AddrKind])
  ]

  const CONTRACTS: seq<Contract> := [
    Contract(ONT_ADDR, 0, "ONT", NATIVE_TOKEN_METHODS),
    Contract(ONG_ADDR, 9, "ONG", NATIVE_TOKEN_METHODS),
    Contract(GOV_ADDR, 0, "ONT", GOVERNANCE_METHODS),
    Contract(WING_ADDR, 9, "WING", NEOVM_OEP4_METHODS),
    Contract(STONT_ADDR, 9, "stONT", WASMVM_OEP4_METHODS),
    Contract(MBL_ADDR, 8, "MBL", NEOVM_OEP4_METHODS)
  ]

  /** First contract at an address, from position `i` of the table. */
  function FindContract(addr: seq<byte>, i: nat): (r: Option<Contract>)
    requires i <= |CONTRACTS|
    decreases |CONTRACTS| - i
  {
    if i == |CONTRACTS| then None
    else if CONTRACTS[i].addr == addr then Some(CONTRACTS[i])
    else FindContract(addr, i + 1)
  }

  /** First signature with a name, from position `j` of a method list. */
  function FindMethod(methods: seq<MethodSig>, name: seq<byte>, j: nat): (r: Option<seq<ParamKind>>)
    requires j <= |methods|
    decreases |methods| - j
  {
    if j == |methods| then None
    else if methods[j].name == name then Some(methods[j].kinds)
    else FindMethod(methods, name, j + 1)
  }

  lemma {:induction false} ContractFound(addr: seq<byte>, i: nat)
    requires i <= |CONTRACTS|
    ensures var r := FindContract(addr, i); r.Some? ==> r.value in CONTRACTS && r.value.addr == addr
    decreases |CONTRACTS| - i
  {
    if i < |CONTRACTS| && CONTRACTS[i].addr != addr {
      ContractFound(addr, i + 1);
    }
  }

  lemma {:induction false} MethodFound(methods: seq<MethodSig>, name: seq<byte>, j: nat)
    requires j <= |methods|
    ensures var r := FindMethod(methods, name, j); r.Some? ==> MethodSig(name, r.value) in methods
    decreases |methods| - j
  {
    if j < |methods| && methods[j].name != name {
      MethodFound(methods, name, j + 1);
    }
  }

  datatype Entry = Entry(contract: Contract, kinds: seq<ParamKind>)

  /** What the tables say about a call; None is the case offered for blind signing. */
  function Lookup(addr: seq<byte>, name: seq<byte>): (r: Option<Entry>) {
    match FindContract(addr, 0)
    case None => None
    case Some(c) =>
      match FindMethod(c.methods, name, 0)
      case None => None
      case Some(kinds) => Some(Entry(c, kinds))
  }

  predicate IsToken(addr: seq<byte>) {
    addr == ONT_ADDR || addr == ONG_ADDR
  }

  predicate IsTransfer(name: seq<byte>) {
    name == TRANSFER || name == TRANSFER_V2
  }

  predicate IsV2(name: seq<byte>) {
    name == TRANSFER_V2 || name == TRANSFER_FROM_V2 || name == APPROVE_V2
  }

  /** A list of keys and amounts comes first, or second behind an address. */
  predicate PairsEarly(kinds: seq<ParamKind>) {
    forall k :: 0 <= k < |kinds| && kinds[k] == PkAmountPairsKind ==> k == 0 || (k == 1 && kinds[0] == AddrKind)
  }

  /** What the proofs need of a signature: a short name of 7-bit characters, some parameter, and
      lists of keys only where the slots have room for them. */
  predicate GoodSig(m: MethodSig) {
    && 0 < |m.name| < 0x80
    && (forall k :: 0 <= k < |m.name| ==> m.name[k] < 0x80)
    && |m.kinds| > 0
    && PairsEarly(m.kinds)
  }

  predicate GoodSigs(ms: seq<MethodSig>) {
    forall j :: 0 <= j < |ms| ==> GoodSig(ms[j])
  }

  lemma TokenTablesAreGood()
    ensures GoodSigs(NATIVE_TOKEN_METHODS) && GoodSigs(NEOVM_OEP4_METHODS) && GoodSigs(WASMVM_OEP4_METHODS)
  {
  }

  lemma GovernanceTableIsGood()
    ensures GoodSigs(GOVERNANCE_METHODS)
  {
  }

  /** Every registered call has a 20-byte address not starting with the PACK opcode, and a name the
      backward scan cannot mistake for a terminator. */
  lemma RegisteredCalls(addr: seq<byte>, name: seq<byte>)
    requires Lookup(addr, name).Some?
    ensures |addr| == 20 && addr[0] != OPCODE_PACK[0]
    ensures GoodSig(MethodSig(name, Lookup(addr, name).value.kinds))
  {
    TokenTablesAreGood();
    GovernanceTableIsGood();
    ContractFound(addr, 0);
    var c := FindContract(addr, 0).value;
    MethodFound(c.methods, name, 0);
    var i :| 0 <= i < |CONTRACTS| && c == CONTRACTS[i];
    assert GoodSigs(c.methods);
    assert MethodSig(name, Lookup(addr, name).value.kinds) in c.methods;
  }

  /** The two list-of-transfers methods are registered for both native tokens. */
  lemma TransfersRegistered(addr: seq<byte>, name: seq<byte>)
    requires IsToken(addr) && IsTransfer(name)
    ensures Lookup(addr, name).Some?
  {
    var c := FindContract(addr, 0).value;
    assert CONTRACTS[0].methods == NATIVE_TOKEN_METHODS && CONTRACTS[1].methods == NATIVE_TOKEN_METHODS;
    assert c.methods == NATIVE_TOKEN_METHODS;
    assert FindMethod(c.methods, name, 3).Some? || name == TRANSFER;
    assert FindMethod(c.methods, name, 2).Some? || name == TRANSFER;
    assert FindMethod(c.methods, name, 1).Some? || name == TRANSFER;
  }

  /** Decimals shown for a call: the tables' for NeoVM and WebAssembly; for native contracts 9 for
      ONG and 0 otherwise, and 9 more in the V2 methods of the two tokens. */
  function Decimals(vm: Vm, addr: seq<byte>, name: seq<byte>): nat {
    if vm == NativeVm then
      (if addr == ONG_ADDR then 9 else 0) + (if IsToken(addr) && IsV2(name) then 9 else 0)
    else
      match FindContract(addr, 0)
      case None => 0
      case Some(c) => c.decimals
  }

  /** Decimals of the amounts of a call: the table's, and 9 more in the V2 methods of the two native
      tokens. */
  function TokenDecimals(addr: seq<byte>, name: seq<byte>): nat {
    (match FindContract(addr, 0)
     case None => 0
     case Some(c) => c.decimals)
    + (if IsToken(addr) && IsV2(name) then 9 else 0)
  }

  function Ticker(addr: seq<byte>): string {
    match FindContract(addr, 0)
    case None => ""
    case Some(c) => c.ticker
  }
}
