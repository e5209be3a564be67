/**
 The transaction language as abstract syntax, and how it is written down. This follows the format
 described at the head of src/transaction/deserialize.c, with the details of the code where the
 two differ. Every byte of a transaction is printed from exactly one piece of the syntax tree.
 */
module Grammar {
  import opened Bytes
  import opened TxTypes
  import opened Contracts

  /** An amount keeps its encoding: the byte 0, an opcode number 1..16, or 1..16 prefixed bytes. */
  datatype Amount = Zero | Push(n: PushNumber) | Prefixed(raw: seq<byte>)
  type PushNumber = n: nat | 1 <= n <= 16 witness 1

  datatype Transfer = Transfer(from: seq<byte>, to: seq<byte>, amount: Amount)

  datatype Value =
    | Addr(hash: seq<byte>)
    | PubKey(hex: seq<byte>)
    | Amt(amount: Amount)
    | Uint128(raw: seq<byte>)
    | OntId(id: seq<byte>)
    | Pairs(count: Amount, keys: seq<seq<byte>>, again: Amount, amounts: seq<Amount>)
    | State(transfer: Transfer)

  /** How the payload size is written; `excess` is what a 32-bit size_t drops from 8 bytes. */
  datatype SizeForm = OneByte | TwoBytes | FourBytes | EightBytes(excess: nat)

  datatype Header = Header(txType: byte, nonce: nat, gasPrice: nat, gasLimit: nat, payer: seq<byte>)

  datatype Call = Call(addr: seq<byte>, name: seq<byte>)

  datatype Payload =
    | TransferList(states: seq<Transfer>, count: Amount, call: Call)
    | NativeCall(args: seq<Value>, call: Call)
    | NeoCall(args: seq<Value>, count: Amount, call: Call)
    | WasmCall(args: seq<Value>, call: Call)

  datatype Tx = Tx(header: Header, form: SizeForm, payload: Payload)

  // ----- amounts

  function PrintAmount(a: Amount): (s: seq<byte>)
    ensures |s| > 0
  {
    match a
    case Zero => [0]
    case Push(n) => [0x50 + n]
    case Prefixed(raw) => [|raw| % 256] + raw
  }

  predicate AmountOk(a: Amount) {
    a.Prefixed? ==> 1 <= |a.raw| <= 16
  }

  function AmountValue(a: Amount): nat {
    match a
    case Zero => 0
    case Push(n) => n
    case Prefixed(raw) => LeValue(raw)
  }

  /** A count is an amount of at most 8 bytes with the given value. */
  predicate Counts(a: Amount, n: nat) {
    AmountOk(a) && (a.Prefixed? ==> |a.raw| <= 8) && AmountValue(a) == n
  }

  // ----- parameters

  function PrintLenAddr(hash: seq<byte>): seq<byte> {
    [20] + hash
  }

  function PrintTransferHead(from: seq<byte>, to: seq<byte>): seq<byte> {
    OPCODE_ST_BEGIN + (PrintLenAddr(from) + (OPCODE_PARAM_END + (PrintLenAddr(to) + OPCODE_PARAM_END)))
  }

  function PrintTransferTail(a: Amount): seq<byte> {
    PrintAmount(a) + (OPCODE_PARAM_END + OPCODE_ST_END)
  }

  function PrintTransfer(t: Transfer): seq<byte> {
    PrintTransferHead(t.from, t.to) + PrintTransferTail(t.amount)
  }

  predicate TransferOk(t: Transfer) {
    |t.from| == 20 && |t.to| == 20 && AmountOk(t.amount)
  }

  function PrintTransfers(ts: seq<Transfer>): seq<byte> {
    if ts == [] then [] else PrintTransfer(ts[0]) + PrintTransfers(ts[1..])
  }

  predicate TransfersOk(ts: seq<Transfer>) {
    forall k :: 0 <= k < |ts| ==> TransferOk(ts[k])
  }

  function PrintKey(hex: seq<byte>): seq<byte> {
    [66] + hex
  }

  /** Each key is followed by the parameter separator. */
  function PrintKeys(ks: seq<seq<byte>>): seq<byte> {
    if ks == [] then [] else PrintKey(ks[0]) + (OPCODE_PARAM_END + PrintKeys(ks[1..]))
  }

  predicate KeysOk(ks: seq<seq<byte>>) {
    forall k :: 0 <= k < |ks| ==> |ks[k]| == 66
  }

  /** Amounts have the separator between them only. */
  function PrintAmounts(xs: seq<Amount>): seq<byte> {
    if xs == [] then []
    else if |xs| == 1 then PrintAmount(xs[0])
    else PrintAmount(xs[0]) + (OPCODE_PARAM_END + PrintAmounts(xs[1..]))
  }

  predicate AmountsOk(xs: seq<Amount>) {
    forall k :: 0 <= k < |xs| ==> AmountOk(xs[k])
  }

  function PrintPairs(v: Value): seq<byte>
    requires v.Pairs?
  {
    PrintAmount(v.count) + (OPCODE_PARAM_END + (PrintKeys(v.keys) +
    (PrintAmount(v.again) + (OPCODE_PARAM_END + PrintAmounts(v.amounts)))))
  }

  function PrintValue(vm: Vm, v: Value): seq<byte> {
    match v
    case Addr(hash) => if vm == WasmVm then hash else PrintLenAddr(hash)
    case PubKey(hex) => PrintKey(hex)
    case Amt(a) => PrintAmount(a)
    case Uint128(raw) => raw
    case OntId(id) => [|id| % 256] + id
    case Pairs(_, _, _, _) => PrintPairs(v)
    case State(t) => PrintTransfer(t)
  }

  function Separator(vm: Vm): seq<byte> {
    if vm == NativeVm then OPCODE_PARAM_END else []
  }

  function PrintArgs(vm: Vm, vs: seq<Value>): seq<byte> {
    if vs == [] then [] else PrintValue(vm, vs[0]) + (Separator(vm) + PrintArgs(vm, vs[1..]))
  }

  function KindOf(v: Value): ParamKind {
    match v
    case Addr(_) => AddrKind
    case PubKey(_) => PubKeyKind
    case Amt(_) => AmountKind
    case Uint128(_) => Uint128Kind
    case OntId(_) => OntIdKind
    case Pairs(_, _, _, _) => PkAmountPairsKind
    case State(_) => TransferStateKind
  }

  /** How many parameter slots a value takes. */
  function Width(v: Value): nat {
    match v
    case OntId(_) => 0
    case Pairs(_, keys, _, amounts) => 1 + |keys| + |amounts|
    case State(_) => 3
    case _ => 1
  }

  /** A value that fits its fields, and whose slots fit when `cur` are taken already. */
  predicate ValueOk(t: Target, v: Value, cur: nat) {
    && cur < t.maxParams
    && match v
       case Addr(hash) => |hash| == 20
       case PubKey(hex) => |hex| == 66
       case Amt(a) => AmountOk(a)
       case Uint128(raw) => |raw| == 16
       case OntId(id) => 1 <= |id| < 256
       case Pairs(count, keys, again, amounts) =>
         && 1 <= |keys| == |amounts|
         && Counts(count, |keys|) && Counts(again, |keys|)
         && KeysOk(keys) && AmountsOk(amounts)
         && cur + 1 + 2 * |keys| <= t.maxParams
       case State(s) => TransferOk(s) && cur + 3 <= t.maxParams
  }

  predicate ArgsOk(t: Target, kinds: seq<ParamKind>, vs: seq<Value>, cur: nat) {
    && |vs| == |kinds|
    && (vs != [] ==>
          && KindOf(vs[0]) == kinds[0]
          && ValueOk(t, vs[0], cur)
          && ArgsOk(t, kinds[1..], vs[1..], cur + Width(vs[0])))
  }

  // ----- header, size, calls

  function PrintHeader(h: Header): seq<byte> {
    [0, h.txType] + (LeBytes(h.nonce, 4) + (LeBytes(h.gasPrice, 8) + (LeBytes(h.gasLimit, 8) + h.payer)))
  }

  /** The fee: price times limit. */
  function Fee(h: Header): nat {
    Times(h.gasPrice, h.gasLimit)
  }

  predicate HeaderOk(h: Header) {
    && h.nonce < U32
    && GAS_PRICE_MIN <= h.gasPrice < U64
    && GAS_LIMIT_MIN <= h.gasLimit
    && Fee(h) <= TOKEN_AMOUNT
    && |h.payer| == 20
  }

  function PrintSize(t: Target, form: SizeForm, n: nat): seq<byte> {
    match form
    case OneByte => [n % 256]
    case TwoBytes => [0xfd] + LeBytes(n, 2)
    case FourBytes => [0xfe] + LeBytes(n, 4)
    case EightBytes(excess) => [0xff] + LeBytes(Restored(t, n, excess), 8)
  }

  predicate SizeOk(t: Target, form: SizeForm, n: nat) {
    match form
    case OneByte => 1 <= n < 0xfd
    case TwoBytes => n < 0x1_0000
    case FourBytes => n < U32
    case EightBytes(excess) => n < t.sizeMod && Restored(t, n, excess) < U64
  }

  function PrintName(name: seq<byte>): seq<byte> {
    [|name| % 256] + name
  }

  /** What follows the method name; WebAssembly calls have nothing there. */
  function PrintTrailer(vm: Vm, addr: seq<byte>): seq<byte> {
    match vm
    case NativeVm => PrintLenAddr(addr) + (OPCODE_SYSCALL + NATIVE_INVOKE)
    case NeoVm => OPCODE_APPCALL + addr
    case WasmVm => []
  }

  function VmOf(p: Payload): Vm {
    match p
    case TransferList(_, _, _) => NativeVm
    case NativeCall(_, _) => NativeVm
    case NeoCall(_, _, _) => NeoVm
    case WasmCall(_, _) => WasmVm
  }

  /** The part in front of the method name (Native and NeoVM), or behind it (WebAssembly). */
  function PrintBody(p: Payload): seq<byte> {
    match p
    case TransferList(states, count, _) => PrintTransfers(states) + (PrintAmount(count) + OPCODE_PACK)
    case NativeCall(args, _) => OPCODE_ST_BEGIN + (PrintArgs(NativeVm, args) + OPCODE_ST_END)
    case NeoCall(args, count, _) => PrintArgs(NeoVm, args) + (PrintAmount(count) + OPCODE_PACK)
    case WasmCall(args, _) => PrintArgs(WasmVm, args)
  }

  function PrintWasm(addr: seq<byte>, name: seq<byte>, body: seq<byte>): seq<byte> {
    addr + ([(|PrintName(name)| + |body|) % 256] + (PrintName(name) + body))
  }

  function PrintPayload(p: Payload): seq<byte> {
    if p.WasmCall? then PrintWasm(p.call.addr, p.call.name, PrintBody(p))
    else PrintBody(p) + (PrintName(p.call.name) + PrintTrailer(VmOf(p), p.call.addr))
  }

  function PrintTx(t: Target, tx: Tx): seq<byte> {
    PrintHeader(tx.header) +
    (PrintSize(t, tx.form, |PrintPayload(tx.payload)|) + (PrintPayload(tx.payload) + OPCODE_END))
  }

  predicate BodyOk(t: Target, p: Payload) {
    match p
    case TransferList(states, count, call) =>
      && IsToken(call.addr) && IsTransfer(call.name)
      && TransfersOk(states) && 3 * |states| <= t.maxParams
      && Counts(count, |states|) && !count.Zero?
    case NativeCall(args, call) =>
      && !(IsToken(call.addr) && IsTransfer(call.name))
      && Lookup(call.addr, call.name).Some?
      && ArgsOk(t, Lookup(call.addr, call.name).value.kinds, args, 0)
    case NeoCall(args, count, call) =>
      && Lookup(call.addr, call.name).Some?
      && ArgsOk(t, Lookup(call.addr, call.name).value.kinds, args, 0)
      && Counts(count, |args|)
    case WasmCall(args, call) =>
      && Lookup(call.addr, call.name).Some?
      && ArgsOk(t, Lookup(call.addr, call.name).value.kinds, args, 0)
  }

  predicate PayloadOk(t: Target, p: Payload) {
    BodyOk(t, p) && (p.WasmCall? ==> |PrintName(p.call.name)| + |PrintBody(p)| < 256)
  }

  /** The well-formed transactions: exactly what the app accepts without blind signing. */
  predicate TxOk(t: Target, tx: Tx) {
    && HeaderOk(tx.header)
    && tx.header.txType == (if tx.payload.WasmCall? then 0xd2 else 0xd1)
    && PayloadOk(t, tx.payload)
    && SizeOk(t, tx.form, |PrintPayload(tx.payload)|)
    && |PrintTx(t, tx)| <= t.maxTx
  }

  // ----- where the parser keeps what it found

  function AmountSlot(a: Amount, off: nat): Slot {
    Slot(AmountKind, off, |PrintAmount(a)|)
  }

  function TransferSlots(s: Transfer, off: nat): (r: seq<Slot>)
    ensures |r| == 3
  {
    [Slot(AddrKind, off + 4, 20), Slot(AddrKind, off + 28, 20), AmountSlot(s.amount, off + 51)]
  }

  function TransfersSlots(ts: seq<Transfer>, off: nat): (r: seq<Slot>)
    ensures |r| == 3 * |ts|
  {
    if ts == [] then [] else TransferSlots(ts[0], off) + TransfersSlots(ts[1..], off + |PrintTransfer(ts[0])|)
  }

  function KeySlots(n: nat, off: nat): (r: seq<Slot>)
    ensures |r| == n
  {
    if n == 0 then [] else [Slot(PubKeyKind, off + 1, 66)] + KeySlots(n - 1, off + 70)
  }

  function AmountSlots(xs: seq<Amount>, off: nat): (r: seq<Slot>)
    ensures |r| == |xs|
  {
    if xs == [] then [] else [AmountSlot(xs[0], off)] + AmountSlots(xs[1..], off + |PrintAmount(xs[0])| + 3)
  }

  function PairsSlots(v: Value, off: nat): (r: seq<Slot>)
    requires v.Pairs?
    ensures |r| == Width(v)
  {
    var keysAt := off + |PrintAmount(v.count)| + 3;
    var amountsAt := keysAt + |PrintKeys(v.keys)| + |PrintAmount(v.again)| + 3;
    [AmountSlot(v.count, off)] + (KeySlots(|v.keys|, keysAt) + AmountSlots(v.amounts, amountsAt))
  }

  function ValueSlots(vm: Vm, v: Value, off: nat): (r: seq<Slot>)
    ensures |r| == Width(v)
  {
    match v
    case Addr(_) => [Slot(AddrKind, if vm == WasmVm then off else off + 1, 20)]
    case PubKey(_) => [Slot(PubKeyKind, off + 1, 66)]
    case Amt(a) => [AmountSlot(a, off)]
    case Uint128(_) => [Slot(Uint128Kind, off, 16)]
    case OntId(_) => []
    case Pairs(_, _, _, _) => PairsSlots(v, off)
    case State(s) => TransferSlots(s, off)
  }

  function ArgsSlots(vm: Vm, vs: seq<Value>, off: nat): seq<Slot> {
    if vs == [] then []
    else ValueSlots(vm, vs[0], off) +
         ArgsSlots(vm, vs[1..], off + |PrintValue(vm, vs[0])| + |Separator(vm)|)
  }

  function PayloadSlots(p: Payload, off: nat): seq<Slot> {
    match p
    case TransferList(states, _, _) => TransfersSlots(states, off)
    case NativeCall(args, _) => ArgsSlots(NativeVm, args, off + 3)
    case NeoCall(args, _, _) => ArgsSlots(NeoVm, args, off)
    case WasmCall(args, call) => ArgsSlots(WasmVm, args, off + 21 + |PrintName(call.name)|)
  }

  /** Offset of the payload. */
  function PayloadStart(t: Target, tx: Tx): nat {
    42 + |PrintSize(t, tx.form, |PrintPayload(tx.payload)|)|
  }

  /** All parameter slots of a transaction, in order. */
  function TxSlots(t: Target, tx: Tx): seq<Slot> {
    PayloadSlots(tx.payload, PayloadStart(t, tx))
  }
}
