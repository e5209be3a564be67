/**
 What each parser of src/transaction/parse.c and src/transaction/deserialize.c computes, as a
 function of the bytes and an offset. The imperative methods of `Parse` and `Deserialize` are
 proved against these; `GrammarProofs` and `Acceptance` relate them to `Grammar`.
 */
module ParserSpec {
  import opened Options
  import opened Bytes
  import opened TxTypes
  import opened Contracts
  import opened Grammar

  datatype Parsed<+T> = Bad | At(value: T, end: nat)

  // ----- parse.c

  function AmountAt(b: seq<byte>, off: nat): (r: Parsed<Amount>)
    ensures r.At? ==> off < r.end <= |b|
  {
    if off >= |b| then Bad
    else
      var amt := b[off];
      if amt == 0 then At(Zero, off + 1)
      else if 0x50 < amt <= 0x60 then At(Push(amt - 0x50), off + 1)
      else if amt > 16 || off + 1 + amt > |b| then Bad
      else At(Prefixed(b[off + 1..off + 1 + amt]), off + 1 + amt)
  }

  /** Offset behind an amount that must encode the number `n` (parse_check_amount). */
  function CountAt(b: seq<byte>, off: nat, n: nat): (r: Parsed<Amount>)
    ensures r.At? ==> off < r.end <= |b|
  {
    match AmountAt(b, off)
    case Bad => Bad
    case At(a, e) => if Counts(a, n) then At(a, e) else Bad
  }

  predicate LenAddrAt(b: seq<byte>, off: nat) {
    off + 21 <= |b| && b[off] == 20
  }

  predicate KeyAt(b: seq<byte>, off: nat) {
    off + 67 <= |b| && b[off] == 66
  }

  function TransferAt(b: seq<byte>, off: nat): (r: Parsed<Transfer>)
    ensures r.At? ==> off + 52 < r.end <= |b| && b[r.end - 1] == 0x6c
  {
    if && Occurs(b, off, OPCODE_ST_BEGIN) && LenAddrAt(b, off + 3) && Occurs(b, off + 24, OPCODE_PARAM_END)
       && LenAddrAt(b, off + 27) && Occurs(b, off + 48, OPCODE_PARAM_END)
    then
      match AmountAt(b, off + 51)
      case Bad => Bad
      case At(a, e) =>
        if Occurs(b, e, OPCODE_PARAM_END) && Occurs(b, e + 3, OPCODE_ST_END) then
          OccursByte(b, e + 3, 0x6c);
          At(Transfer(b[off + 4..off + 24], b[off + 28..off + 48], a), e + 4)
        else Bad
    else Bad
  }

  function Cons<T>(x: T, r: Parsed<seq<T>>): (q: Parsed<seq<T>>)
    ensures q.At? <==> r.At?
    ensures q.At? ==> q == At([x] + r.value, r.end)
  {
    match r
    case Bad => Bad
    case At(xs, e) => At([x] + xs, e)
  }

  /** The loop over transfer states: as long as the next byte opens one. */
  function TransfersAt(t: Target, b: seq<byte>, off: nat, cur: nat): (r: Parsed<seq<Transfer>>)
    ensures r.At? && off <= |b| ==> off <= r.end <= |b|
    decreases |b| - off
  {
    if off < |b| && b[off] == OPCODE_ST_BEGIN[0] then
      if cur + 3 > t.maxParams then Bad
      else
        match TransferAt(b, off)
        case Bad => Bad
        case At(s, e) => Cons(s, TransfersAt(t, b, e, cur + 3))
    else At([], off)
  }

  function KeysAt(b: seq<byte>, off: nat, n: nat): (r: Parsed<seq<seq<byte>>>)
    ensures r.At? ==> |r.value| == n && r.end == off + 70 * n
    ensures r.At? && off <= |b| ==> r.end <= |b|
    decreases n
  {
    if n == 0 then At([], off)
    else if KeyAt(b, off) && Occurs(b, off + 67, OPCODE_PARAM_END) then
      Cons(b[off + 1..off + 67], KeysAt(b, off + 70, n - 1))
    else Bad
  }

  function AmountsAt(b: seq<byte>, off: nat, n: nat): (r: Parsed<seq<Amount>>)
    ensures r.At? ==> |r.value| == n
    ensures r.At? && off <= |b| ==> r.end <= |b|
    decreases n
  {
    if n == 0 then At([], off)
    else
      match AmountAt(b, off)
      case Bad => Bad
      case At(a, e) =>
        if n == 1 then At([a], e)
        else if Occurs(b, e, OPCODE_PARAM_END) then Cons(a, AmountsAt(b, e + 3, n - 1))
        else Bad
  }

  /** pks_num * 2 + 1 + *cur, in the 64-bit arithmetic of the source. */
  function PairsWidth64(n: nat, cur: nat): nat {
    (n * 2 + 1 + cur) % U64
  }

  /** The number of keys, its tests, and the separator behind it. */
  function PairsCountAt(t: Target, b: seq<byte>, off: nat, cur: nat): (r: Parsed<Amount>)
    ensures r.At? ==> off + 3 < r.end <= |b|
  {
    match AmountAt(b, off)
    case Bad => Bad
    case At(count, e) =>
      var n := AmountValue(count);
      if Counts(count, n) && n != 0 && PairsWidth64(n, cur) <= t.maxParams && Occurs(b, e, OPCODE_PARAM_END)
      then At(count, e + 3)
      else Bad
  }

  /** The number of amounts, equal to that of keys, and the separator behind it. */
  function PairsAgainAt(b: seq<byte>, off: nat, n: nat): (r: Parsed<Amount>)
    ensures r.At? ==> off + 3 < r.end <= |b|
  {
    match CountAt(b, off, n)
    case Bad => Bad
    case At(again, e) => if Occurs(b, e, OPCODE_PARAM_END) then At(again, e + 3) else Bad
  }

  datatype PairsTail = PairsTail(again: Amount, amounts: seq<Amount>)

  /** What follows the keys. */
  function PairsTailAt(b: seq<byte>, off: nat, n: nat): (r: Parsed<PairsTail>)
    ensures r.At? ==> off < r.end <= |b|
  {
    match PairsAgainAt(b, off, n)
    case Bad => Bad
    case At(again, e) =>
      match AmountsAt(b, e, n)
      case Bad => Bad
      case At(amounts, e1) =>
        AmountsProgress(b, e, n);
        At(PairsTail(again, amounts), e1)
  }

  datatype PairsBody = PairsBody(keys: seq<seq<byte>>, tail: PairsTail)

  /** What follows the number of keys. */
  function PairsBodyAt(b: seq<byte>, off: nat, n: nat): (r: Parsed<PairsBody>)
    ensures r.At? && off <= |b| ==> off < r.end <= |b|
  {
    match KeysAt(b, off, n)
    case Bad => Bad
    case At(keys, e) =>
      match PairsTailAt(b, e, n)
      case Bad => Bad
      case At(tail, e1) => At(PairsBody(keys, tail), e1)
  }

  function PairsAt(t: Target, b: seq<byte>, off: nat, cur: nat): (r: Parsed<Value>)
    ensures r.At? ==> off < r.end <= |b| && r.value.Pairs?
  {
    match PairsCountAt(t, b, off, cur)
    case Bad => Bad
    case At(count, e) =>
      match PairsBodyAt(b, e, AmountValue(count))
      case Bad => Bad
      case At(body, e1) => At(Pairs(count, body.keys, body.tail.again, body.tail.amounts), e1)
  }

  lemma AmountsProgress(b: seq<byte>, off: nat, n: nat)
    ensures AmountsAt(b, off, n).At? ==> off <= AmountsAt(b, off, n).end
    decreases n
  {
  }

  function ValueAt(t: Target, vm: Vm, b: seq<byte>, off: nat, kind: ParamKind, cur: nat): (r: Parsed<Value>)
    ensures r.At? ==> off < r.end <= |b| && KindOf(r.value) == kind
  {
    if cur >= t.maxParams then Bad
    else
      match kind
      case AddrKind =>
        if vm == WasmVm then
          if off + 20 <= |b| then At(Addr(b[off..off + 20]), off + 20) else Bad
        else if LenAddrAt(b, off) then At(Addr(b[off + 1..off + 21]), off + 21)
        else Bad
      case AmountKind =>
        (match AmountAt(b, off)
         case Bad => Bad
         case At(a, e) => At(Amt(a), e))
      case Uint128Kind =>
        if off + 16 <= |b| then At(Uint128(b[off..off + 16]), off + 16) else Bad
      case PubKeyKind =>
        if KeyAt(b, off) then At(PubKey(b[off + 1..off + 67]), off + 67) else Bad
      case OntIdKind =>
        if off < |b| && b[off] != 0 && off + 1 + b[off] <= |b|
        then At(OntId(b[off + 1..off + 1 + b[off]]), off + 1 + b[off])
        else Bad
      case PkAmountPairsKind => PairsAt(t, b, off, cur)
      case TransferStateKind =>
        if cur + 3 > t.maxParams then Bad
        else
          (match TransferAt(b, off)
           case Bad => Bad
           case At(s, e) => At(State(s), e))
      case TransferStateListKind => Bad
  }

  function ArgsAt(t: Target, vm: Vm, b: seq<byte>, off: nat, kinds: seq<ParamKind>, cur: nat): (r: Parsed<seq<Value>>)
    ensures r.At? && off <= |b| ==> off <= r.end <= |b|
    decreases kinds
  {
    if kinds == [] then At([], off)
    else
      match ValueAt(t, vm, b, off, kinds[0], cur)
      case Bad => Bad
      case At(v, e) =>
        if !Occurs(b, e, Separator(vm)) then Bad
        else Cons(v, ArgsAt(t, vm, b, e + |Separator(vm)|, kinds[1..], cur + Width(v)))
  }

  // ----- deserialize.c

  function HeaderAt(b: seq<byte>): (r: Option<Header>) {
    if |b| < 42 || b[0] != 0 then None
    else
      var h := Header(b[1], LeValue(b[2..6]), LeValue(b[6..14]), LeValue(b[14..22]), b[22..42]);
      LeValueBound(b[2..6]);
      LeValueBound(b[6..14]);
      LeValueBound(b[14..22]);
      if h.gasPrice < GAS_PRICE_MIN || h.gasLimit < GAS_LIMIT_MIN
         || h.gasLimit > Quot(TOKEN_AMOUNT, h.gasPrice)
      then None
      else Some(h)
  }

  datatype Sized = Sized(form: SizeForm, size: nat)

  /** The size prefix at `off`; the size is what is left of it in a size_t. */
  function SizeAt(t: Target, b: seq<byte>, off: nat): (r: Parsed<Sized>)
    ensures r.At? ==> off < r.end <= |b| && r.value.size < t.sizeMod && r.end <= off + 9
  {
    if off >= |b| || b[off] == 0 then Bad
    else if b[off] < 0xfd then At(Sized(OneByte, b[off]), off + 1)
    else if b[off] == 0xfd then
      if off + 3 > |b| then Bad
      else
        LeValueBound(b[off + 1..off + 3]);
        Pow256Values();
        At(Sized(TwoBytes, LeValue(b[off + 1..off + 3])), off + 3)
    else if b[off] == 0xfe then
      if off + 5 > |b| then Bad
      else
        LeValueBound(b[off + 1..off + 5]);
        Pow256Values();
        At(Sized(FourBytes, LeValue(b[off + 1..off + 5])), off + 5)
    else if off + 9 > |b| then Bad
    else
      var v := LeValue(b[off + 1..off + 9]);
      At(Sized(EightBytes(Dropped(t, v)), SizeT(t, v)), off + 9)
  }

  /** The length test behind the size prefix, in size_t arithmetic. */
  predicate SizeMatches(t: Target, b: seq<byte>, s: Parsed<Sized>)
    requires s.At?
  {
    SizeT(t, s.end + s.value.size + 1) == |b|
  }

  datatype Found = Found(vm: Vm, addr: seq<byte>)

  predicate NativeTrailerAt(b: seq<byte>, p: nat) {
    && p + NATIVE_TRAILER == |b| && b[p] == 20
    && Occurs(b, p + 21, OPCODE_SYSCALL) && Occurs(b, p + 23, NATIVE_INVOKE) && b[p + 46] == 0
  }

  /** Contract type and address, from the end (native, NeoVM) or from `off` (WebAssembly). */
  function ContractAt(b: seq<byte>, off: nat, txType: byte): (r: Option<Found>)
    ensures r.Some? ==> |r.value.addr| == 20
    ensures r.Some? && r.value.vm == NativeVm ==> off + NATIVE_TRAILER <= |b|
    ensures r.Some? && r.value.vm == NeoVm ==> off + NEOVM_TRAILER <= |b|
    ensures r.Some? && r.value.vm == WasmVm ==> off + 20 <= |b|
  {
    if txType == 0xd1 then
      if off + NEOVM_TRAILER > |b| then None
      else
        var p := |b| - NEOVM_TRAILER;
        if b[p] == OPCODE_APPCALL[0] then
          if b[p + 21] == 0 then Some(Found(NeoVm, b[p + 1..p + 21])) else None
        else if off + NATIVE_TRAILER > |b| then None
        else
          var q := |b| - NATIVE_TRAILER;
          if NativeTrailerAt(b, q) then Some(Found(NativeVm, b[q + 1..q + 21])) else None
    else if txType == 0xd2 then
      if off + 20 <= |b| then Some(Found(WasmVm, b[off..off + 20])) else None
    else None
  }

  /** The offset behind the terminator found at `i`, if there is one there. */
  function TerminatorAt(b: seq<byte>, native: bool, sEnd: nat, i: nat): Option<nat> {
    if native && i + 2 <= sEnd && Occurs(b, i, OPCODE_PARAM_ST_END) then Some(i + 4)
    else if Occurs(b, i, OPCODE_PACK) then Some(i + 1)
    else None
  }

  /** The backward scan, from `i` down to `sBegin`; 0 when nothing is found. */
  function Scan(b: seq<byte>, native: bool, sBegin: nat, sEnd: nat, i: nat): (cur: nat)
    ensures cur == 0 || sBegin < cur <= i + 4
    decreases i
  {
    if i < sBegin then 0
    else
      match TerminatorAt(b, native, sEnd, i)
      case Some(cur) => cur
      case None => if i == 0 then 0 else Scan(b, native, sBegin, sEnd, i - 1)
  }

  /** The method slot must fill the space between the scan result and the trailer. */
  predicate NameFills(b: seq<byte>, cur: nat, sEnd: nat) {
    0 < cur < sEnd < |b| && b[cur] != 0 && cur + 1 + b[cur] == sEnd
  }

  datatype Named = Named(name: seq<byte>, start: nat)

  function TrailerLength(vm: Vm): nat {
    match vm
    case NativeVm => NATIVE_TRAILER
    case NeoVm => NEOVM_TRAILER
    case WasmVm => 0
  }

  /** Method name and start of the parameters; `off` is the start of the payload. */
  function MethodAt(b: seq<byte>, off: nat, vm: Vm): (r: Option<Named>)
    requires off + TrailerLength(vm) <= |b|
    ensures r.Some? ==> 1 <= |r.value.name| < 256 && off <= r.value.start <= |b|
  {
    if vm == WasmVm then
      if off + 22 < |b| && b[off + 20] != 0 && off + 22 + b[off + 20] == |b|
         && b[off + 21] != 0 && off + 22 + b[off + 21] <= |b|
      then Some(Named(b[off + 22..off + 22 + b[off + 21]], off + 22 + b[off + 21]))
      else None
    else
      var sEnd := |b| - TrailerLength(vm);
      var cur := Scan(b, vm == NativeVm, off, sEnd, sEnd + 1);
      if NameFills(b, cur, sEnd) then Some(Named(b[cur + 1..sEnd], off)) else None
  }

  datatype Outcome =
    | Accepted(tx: Tx)
    | Undefined(header: Header, found: Found, name: seq<byte>)
    | WrongLength
    | WrongBytecode

  function StatusOf(o: Outcome): Status {
    match o
    case Accepted(_) => OK
    case Undefined(_, _, _) => TX_NOT_DEFINED
    case WrongLength => LENGTH_WRONG
    case WrongBytecode => BYTECODE_WRONG
  }

  /** Result of transaction_deserialize_params: the payload and where its parse stopped. */
  datatype Body = BadBody | UndefinedBody | Body(payload: Payload, end: nat)

  function TransferBody(t: Target, b: seq<byte>, off: nat, call: Call): Body {
    match TransfersAt(t, b, off, 0)
    case Bad => BadBody
    case At(states, e) =>
      match CountAt(b, e, |states|)
      case Bad => BadBody
      case At(count, e1) =>
        if Occurs(b, e1, OPCODE_PACK) then Body(TransferList(states, count, call), e1 + 1) else BadBody
  }

  /** What must follow the parameters, per contract type. */
  function CloseBody(vm: Vm, b: seq<byte>, args: seq<Value>, e: nat, call: Call): Body {
    match vm
    case NativeVm => if Occurs(b, e, OPCODE_ST_END) then Body(NativeCall(args, call), e + 1) else BadBody
    case NeoVm =>
      (match CountAt(b, e, |args|)
       case Bad => BadBody
       case At(count, e1) =>
         if Occurs(b, e1, OPCODE_PACK) then Body(NeoCall(args, count, call), e1 + 1) else BadBody)
    case WasmVm => if Occurs(b, e, OPCODE_END) then Body(WasmCall(args, call), e + 1) else BadBody
  }

  function ArgsBody(t: Target, vm: Vm, b: seq<byte>, off: nat, call: Call): Body {
    match Lookup(call.addr, call.name)
    case None => UndefinedBody
    case Some(entry) =>
      match ArgsAt(t, vm, b, off, entry.kinds, 0)
      case Bad => BadBody
      case At(args, e) => CloseBody(vm, b, args, e, call)
  }

  function BodyAt(t: Target, vm: Vm, b: seq<byte>, off: nat, call: Call): Body {
    if vm == NativeVm then
      if IsToken(call.addr) && IsTransfer(call.name) then TransferBody(t, b, off, call)
      else if !Occurs(b, off, OPCODE_ST_BEGIN) then BadBody
      else ArgsBody(t, vm, b, off + 3, call)
    else ArgsBody(t, vm, b, off, call)
  }

  /** Everything after the size test: contract, method, parameters, final length. */
  function PayloadAt(t: Target, b: seq<byte>, h: Header, s: Parsed<Sized>): Outcome
    requires s.At?
  {
    match ContractAt(b, s.end, h.txType)
    case None => WrongBytecode
    case Some(found) =>
      match MethodAt(b, s.end, found.vm)
      case None => WrongBytecode
      case Some(named) =>
        match BodyAt(t, found.vm, b, named.start, Call(found.addr, named.name))
        case BadBody => WrongBytecode
        case UndefinedBody => Undefined(h, found, named.name)
        case Body(p, e) =>
          var len := if found.vm == WasmVm then 0 else |named.name| + 1 + TrailerLength(found.vm);
          if e + len == |b| then Accepted(Tx(h, s.value.form, p)) else WrongLength
  }

  /** transaction_deserialize. */
  function Deserialize(t: Target, b: seq<byte>): Outcome {
    if |b| > t.maxTx then WrongLength
    else
      match HeaderAt(b)
      case None => WrongBytecode
      case Some(h) =>
        var s := SizeAt(t, b, 42);
        if s.Bad? then WrongBytecode
        else if !SizeMatches(t, b, s) then WrongLength
        else PayloadAt(t, b, h, s)
  }

  /** The bytes get past the size test: the only inputs for which parameters are parsed at all. */
  predicate PassesGate(t: Target, b: seq<byte>) {
    && |b| <= t.maxTx
    && HeaderAt(b).Some?
    && SizeAt(t, b, 42).At?
    && SizeMatches(t, b, SizeAt(t, b, 42))
  }
}
