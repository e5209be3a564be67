/**
 src/transaction/deserialize.c: the transaction is parsed stage by stage into a Transaction
 object. Differences of size_t values are taken modulo its width, as in the source.
 */
module Deserializer {
  import opened Options
  import opened Bytes
  import opened TxTypes
  import opened Contracts
  import opened Grammar
  import opened ParserSpec
  import opened GrammarProofs
  import opened Acceptance
  import opened Reader
  import opened Utils
  import opened Parse

  /** transaction_t. `payer` is an offset; the slots are allocated once and written in place. */
  class Transaction {
    var version: byte
    var txType: byte
    var nonce: nat
    var gasPrice: nat
    var gasLimit: nat
    var payer: nat
    var vm: Vm
    var addr: Slot
    var ticker: string
    var decimals: nat
    var name: Slot
    const parameters: array<Slot>

    constructor (t: Target)
      ensures fresh(parameters) && parameters.Length == t.maxParams
      ensures forall j :: 0 <= j < parameters.Length ==> parameters[j] == NoSlot
    {
      version, txType, nonce, gasPrice, gasLimit, payer := 0, 0, 0, 0, 0, 0;
      vm, addr, ticker, decimals, name := NativeVm, NoSlot, "", 0, NoSlot;
      parameters := new Slot[t.maxParams](_ => NoSlot);
    }

    /** All bytes zero: every slot is unused again. */
    method Clear()
      modifies this, parameters
      ensures forall j :: 0 <= j < parameters.Length ==> parameters[j] == NoSlot
    {
      version, txType, nonce, gasPrice, gasLimit, payer := 0, 0, 0, 0, 0, 0;
      vm, addr, ticker, decimals, name := NativeVm, NoSlot, "", 0, NoSlot;
      forall j | 0 <= j < parameters.Length { parameters[j] := NoSlot; }
    }

    /** The stored header is `h`, parsed from `b`. */
    ghost predicate Stores(b: seq<byte>, h: Header)
      reads this
    {
      && version == 0 && txType == h.txType && nonce == h.nonce && gasPrice == h.gasPrice && gasLimit == h.gasLimit
      && payer + 20 <= |b| && b[payer..payer + 20] == h.payer
    }

    /** The stored contract and method name. */
    ghost predicate Calls(b: seq<byte>, vm: Vm, call: Call)
      reads this
    {
      && this.vm == vm
      && addr.Slot? && InBytes(b, addr) && SlotBytes(b, addr) == call.addr
      && name.Slot? && InBytes(b, name) && SlotBytes(b, name) == call.name
    }
  }

  /** x - y in size_t. */
  function SizeSub(t: Target, x: nat, y: nat): (r: nat)
    ensures r < t.sizeMod
    ensures y <= x < t.sizeMod ==> r == x - y
    ensures x < y <= x + t.sizeMod ==> r == x + t.sizeMod - y || x + t.sizeMod - y == t.sizeMod
  {
    SizeT(t, x - y)
  }

  method DeserializeHeader(t: Target, buf: Buffer, tx: Transaction) returns (status: Status)
    requires buf.Valid() && buf.offset == 0
    modifies buf, tx
    ensures buf.Valid()
    ensures status == (if |buf.bytes| > t.maxTx then LENGTH_WRONG
                       else if HeaderAt(buf.bytes).None? then BYTECODE_WRONG else OK)
    ensures status == OK ==> buf.offset == 42 && tx.Stores(buf.bytes, HeaderAt(buf.bytes).value)
  {
    hide LeValue, Quot;
    if |buf.bytes| > t.maxTx {
      return LENGTH_WRONG;
    }
    status := BYTECODE_WRONG;
    var ok;
    ok, tx.version := buf.ReadU8();
    if !ok || tx.version != 0x00 {
      return;
    }
    ok, tx.txType := buf.ReadU8();
    if !ok {
      return;
    }
    ok, tx.nonce := buf.ReadLe(4);
    if !ok {
      return;
    }
    ok, tx.gasPrice := buf.ReadLe(8);
    if !ok || tx.gasPrice < GAS_PRICE_MIN {
      return;
    }
    ok, tx.gasLimit := buf.ReadLe(8);
    QuotIsDivision(TOKEN_AMOUNT, tx.gasPrice);
    if !ok || tx.gasLimit < GAS_LIMIT_MIN || tx.gasLimit > TOKEN_AMOUNT / tx.gasPrice {
      return;
    }
    tx.payer := buf.offset;
    ok := buf.SeekCur(20);
    if !ok {
      return;
    }
    status := OK;
  }

  /** Bytes of the number behind the first byte of a size. */
  function SizeWidth(first: byte): nat {
    if first == 0xfd then 2 else if first == 0xfe then 4 else if first == 0xff then 8 else 0
  }

  /** The size prefix, uniformly in its width. */
  lemma SizeByWidth(t: Target, b: seq<byte>, off: nat)
    requires off < |b| && b[off] != 0
    ensures var s := SizeAt(t, b, off);
            var w := SizeWidth(b[off]);
            if off + 1 + w > |b| then s == Bad
            else s.At? && s.end == off + 1 + w
                 && s.value.size == SizeT(t, if w == 0 then b[off] else LeValue(b[off + 1..off + 1 + w]))
  {
    hide LeValue;
    var w := SizeWidth(b[off]);
    if 0 < w < 8 && off + 1 + w <= |b| {
      SmallSize(b[off + 1..off + 1 + w]);
    }
  }

  lemma SmallSize(bs: seq<byte>)
    requires |bs| == 2 || |bs| == 4
    ensures LeValue(bs) < U32
  {
    Pow256Values();
    LeValueBound(bs);
  }

  /** The number as written, before it is assigned to a size_t. */
  method ReadSize(t: Target, buf: Buffer) returns (ok: bool, size: nat)
    requires buf.Valid()
    modifies buf
    ensures buf.Valid()
    ensures var s := SizeAt(t, buf.bytes, old(buf.offset));
            ok == s.At? && (ok ==> buf.offset == s.end && SizeT(t, size) == s.value.size)
  {
    size := 0;
    ghost var off := buf.offset;
    var firstByte: byte;
    ok, firstByte := buf.ReadU8();
    if !ok || firstByte == 0 {
      return false, size;
    }
    SizeByWidth(t, buf.bytes, off);
    hide LeValue, SizeAt, SizeT;
    match firstByte {
      case 0xfd => ok, size := buf.ReadLe(2);
      case 0xfe => ok, size := buf.ReadLe(4);
      case 0xff => ok, size := buf.ReadLe(8);
      case _ => size := firstByte;
    }
  }

  method DeserializePayloadSize(t: Target, buf: Buffer) returns (status: Status)
    requires buf.Valid() && |buf.bytes| <= t.maxTx
    modifies buf
    ensures buf.Valid()
    ensures var s := SizeAt(t, buf.bytes, old(buf.offset));
            && status == (if s.Bad? then BYTECODE_WRONG
                          else if SizeMatches(t, buf.bytes, s) then OK else LENGTH_WRONG)
            && (status == OK ==> buf.offset == s.end)
  {
    status := BYTECODE_WRONG;
    hide SizeAt, SizeT;
    var ok, payloadSize := ReadSize(t, buf);
    if !ok {
      return;
    }
    // assigned to a size_t
    payloadSize := SizeT(t, payloadSize);
    var wrong := SizeT(t, buf.offset + payloadSize + |OPCODE_END|) != |buf.bytes|;
    status := if wrong then LENGTH_WRONG else OK;
  }

  method DeserializeContract(buf: Buffer, tx: Transaction) returns (status: Status)
    requires buf.Valid()
    modifies buf, tx`vm, tx`addr
    ensures buf.Valid()
    ensures var off := old(buf.offset);
            var c := ContractAt(buf.bytes, off, tx.txType);
            && status == (if c.Some? then OK else BYTECODE_WRONG)
            && (status == OK ==>
                  && tx.vm == c.value.vm
                  && tx.addr.Slot? && InBytes(buf.bytes, tx.addr) && SlotBytes(buf.bytes, tx.addr) == c.value.addr
                  && buf.offset == if c.value.vm == WasmVm then off + 20 else off)
  {
    var os := buf.offset;
    var ok;
    if tx.txType == 0xd1 {
      if !buf.CanRead(|OPCODE_END| + 20 + 1) {
        return BYTECODE_WRONG;
      }
      if buf.bytes[|buf.bytes| - |OPCODE_END| - 20 - 1] != OPCODE_APPCALL[0] {
        tx.vm := NativeVm;
        ok := CheckNativeTrailer(buf, tx);
      } else {
        tx.vm := NeoVm;
        ok := CheckNeoTrailer(buf, tx);
      }
      if ok {
        ok := buf.SeekSet(os);
      }
    } else if tx.txType == 0xd2 {
      tx.vm := WasmVm;
      ok, tx.addr := ParseAddress(buf, false);
    } else {
      return BYTECODE_WRONG;
    }
    status := if ok then OK else BYTECODE_WRONG;
  }

  method CheckNativeTrailer(buf: Buffer, tx: Transaction) returns (ok: bool)
    requires buf.Valid() && NEOVM_TRAILER <= |buf.bytes|
    modifies buf, tx`addr
    ensures buf.Valid()
    ensures var b := buf.bytes;
            var p := |b| - NATIVE_TRAILER;
            && ok == (old(buf.offset) + NATIVE_TRAILER <= |b| && NativeTrailerAt(b, p))
            && (ok ==> tx.addr.Slot? && InBytes(b, tx.addr) && SlotBytes(b, tx.addr) == b[p + 1..p + 21])
  {
    ok := buf.CanRead(NATIVE_TRAILER);
    if ok {
      ok := buf.SeekSet(|buf.bytes| - NATIVE_TRAILER);
    }
    if ok {
      ok, tx.addr := ParseAddress(buf, true);
    }
    if ok {
      ok := CheckConstant(buf, OPCODE_SYSCALL);
    }
    if ok {
      ok := CheckConstant(buf, NATIVE_INVOKE);
    }
    if ok {
      OccursByte(buf.bytes, buf.offset, 0);
      ok := CheckConstant(buf, OPCODE_END);
    }
    ok := ok && buf.offset == |buf.bytes|;
  }

  method CheckNeoTrailer(buf: Buffer, tx: Transaction) returns (ok: bool)
    requires buf.Valid() && buf.offset + NEOVM_TRAILER <= |buf.bytes|
    modifies buf, tx`addr
    ensures buf.Valid()
    ensures var b := buf.bytes;
            var p := |b| - NEOVM_TRAILER;
            && ok == (b[p] == OPCODE_APPCALL[0] && b[p + 21] == 0)
            && (ok ==> tx.addr.Slot? && InBytes(b, tx.addr) && SlotBytes(b, tx.addr) == b[p + 1..p + 21])
  {
    ok := buf.CanRead(NEOVM_TRAILER);
    if ok {
      ok := buf.SeekSet(|buf.bytes| - NEOVM_TRAILER);
    }
    if ok {
      OccursByte(buf.bytes, buf.offset, OPCODE_APPCALL[0]);
      ok := CheckConstant(buf, OPCODE_APPCALL);
    }
    if ok {
      ok, tx.addr := ParseAddress(buf, false);
    }
    if ok {
      OccursByte(buf.bytes, buf.offset, 0);
      ok := CheckConstant(buf, OPCODE_END);
    }
    ok := ok && buf.offset == |buf.bytes|;
  }

  /** The backward scan for the terminator in front of the method name. */
  method ScanBack(t: Target, buf: Buffer, native: bool, sBegin: nat, sEnd: nat) returns (cur: nat)
    requires 42 < sBegin <= sEnd && sEnd + NEOVM_TRAILER <= |buf.bytes| <= t.maxTx
    ensures cur == Scan(buf.bytes, native, sBegin, sEnd, sEnd + 1)
  {
    hide Occurs;
    var b := buf.bytes;
    cur := 0;
    var i := SizeSub(t, sEnd, SizeSub(t, |OPCODE_PACK|, 2));
    assert i == sEnd + 1;
    while i >= sBegin
      invariant sBegin - 1 <= i <= sEnd + 1
      invariant Scan(b, native, sBegin, sEnd, sEnd + 1) == Scan(b, native, sBegin, sEnd, i)
      decreases i
    {
      if && native && i <= SizeSub(t, sEnd, SizeSub(t, |OPCODE_PARAM_ST_END|, 2))
         && Compare(b, i, OPCODE_PARAM_ST_END)
      {
        return i + |OPCODE_PARAM_ST_END|;
      }
      if Compare(b, i, OPCODE_PACK) {
        return i + |OPCODE_PACK|;
      }
      i := i - 1;
    }
  }

  /** memcmp at an offset where all compared bytes exist. */
  predicate Compare(b: seq<byte>, at: nat, str: seq<byte>)
    requires at + |str| <= |b|
    ensures Compare(b, at, str) == Occurs(b, at, str)
  {
    b[at..at + |str|] == str
  }

  /** The name between the terminator and the trailer (native and NeoVM). */
  method FindName(t: Target, buf: Buffer, tx: Transaction, sEnd: nat) returns (ok: bool)
    requires buf.Valid() && 42 < buf.offset <= sEnd && sEnd + NEOVM_TRAILER <= |buf.bytes| <= t.maxTx
    requires buf.bytes[0] == 0
    modifies buf, tx`name
    ensures buf.Valid()
    ensures var cur := Scan(buf.bytes, tx.vm == NativeVm, old(buf.offset), sEnd, sEnd + 1);
            && ok == NameFills(buf.bytes, cur, sEnd)
            && (ok ==> buf.offset == old(buf.offset) && tx.name == Slot(AddrKind, cur + 1, sEnd - cur - 1))
  {
    hide Scan;
    var sBegin := buf.offset;
    var cur := ScanBack(t, buf, tx.vm == NativeVm, sBegin, sEnd);
    var methodIntentLength := SizeSub(t, sEnd - 1, cur);
    ok := buf.SeekSet(cur);
    if !ok || methodIntentLength == 0 {
      return false;
    }
    ok, tx.name := ParseMethodName(buf);
    if !ok || tx.name.len != methodIntentLength {
      return false;
    }
    ok := buf.SeekSet(sBegin);
  }

  /** The name of a WebAssembly call follows a byte that counts the rest of the payload. */
  method WasmName(t: Target, buf: Buffer, tx: Transaction, ghost off: nat) returns (ok: bool)
    requires buf.Valid() && off + 20 == buf.offset && |buf.bytes| <= t.maxTx
    modifies buf, tx`name
    ensures buf.Valid()
    ensures var m := MethodAt(buf.bytes, off, WasmVm);
            && ok == m.Some?
            && (ok ==> && buf.offset == m.value.start
                       && tx.name.Slot? && InBytes(buf.bytes, tx.name) && SlotBytes(buf.bytes, tx.name) == m.value.name)
  {
    var remainingSize: byte;
    ok, remainingSize := buf.ReadU8();
    if !ok || remainingSize == 0 || remainingSize != SizeSub(t, |buf.bytes| - buf.offset, |OPCODE_END|) {
      return false;
    }
    ok, tx.name := ParseMethodName(buf);
  }

  /** The guard in front of the scan lets every native and NeoVM transaction pass: in size_t, adding
      the length 1 less 2 subtracts 1. */
  lemma GuardPasses(t: Target, sBegin: nat, sEnd: nat)
    requires 0 < sBegin <= sEnd < t.sizeMod
    ensures SizeT(t, sBegin + SizeSub(t, |OPCODE_PACK|, 2)) == sBegin - 1
  {
  }

  method DeserializeMethod(t: Target, buf: Buffer, tx: Transaction, ghost off: nat) returns (status: Status)
    requires buf.Valid() && 42 < off && off + TrailerLength(tx.vm) <= |buf.bytes| <= t.maxTx
    requires buf.bytes[0] == 0
    requires buf.offset == if tx.vm == WasmVm then off + 20 else off
    modifies buf, tx`name
    ensures buf.Valid()
    ensures var m := MethodAt(buf.bytes, off, tx.vm);
            && status == (if m.Some? then OK else BYTECODE_WRONG)
            && (status == OK ==>
                  && buf.offset == m.value.start
                  && tx.name.Slot? && InBytes(buf.bytes, tx.name) && SlotBytes(buf.bytes, tx.name) == m.value.name)
  {
    hide Scan, NameFills, SizeT, SizeSub;
    status := BYTECODE_WRONG;
    var sBegin := buf.offset;
    var sEnd := 0;
    var ok;
    match tx.vm {
      case NativeVm => sEnd := |buf.bytes| - NATIVE_TRAILER;
      case NeoVm => sEnd := |buf.bytes| - NEOVM_TRAILER;
      case WasmVm =>
        ok := WasmName(t, buf, tx, off);
        status := if ok then OK else BYTECODE_WRONG;
        return;
    }
    GuardPasses(t, sBegin, sEnd);
    if sEnd < sBegin || sEnd > |buf.bytes| || sEnd < SizeT(t, sBegin + SizeSub(t, |OPCODE_PACK|, 2)) {
      return;
    }
    ok := FindName(t, buf, tx, sEnd);
    status := if ok then OK else BYTECODE_WRONG;
  }

  // ----- parameters

  /** `done` are the transfers parsed so far from `off`; the next one would be at `at`. */
  predicate StatesSoFar(t: Target, b: seq<byte>, off: nat, done: seq<Transfer>, at: nat) {
    && at == off + |PrintTransfers(done)| && at <= |b|
    && TransfersAt(t, b, off, 0) == Prepend(done, TransfersAt(t, b, at, 3 * |done|))
  }

  lemma StatesStart(t: Target, b: seq<byte>, off: nat, was: seq<Slot>)
    requires off <= |b|
    ensures StatesSoFar(t, b, off, [], off) && TransfersSlots([], off) == was[..0] && Outside(was, was, 0, 0)
  {
    PrependNil(TransfersAt(t, b, off, 0));
  }

  lemma {:induction false} PrintAppend(ts: seq<Transfer>, s: Transfer)
    ensures PrintTransfers(ts + [s]) == PrintTransfers(ts) + PrintTransfer(s)
  {
    hide PrintTransfer;
    if ts == [] {
      assert [] + [s] == [s] && [s][1..] == [];
    } else {
      PrintAppend(ts[1..], s);
      assert (ts + [s])[1..] == ts[1..] + [s];
    }
  }

  lemma {:induction false} SlotsAppend(ts: seq<Transfer>, s: Transfer, off: nat)
    ensures TransfersSlots(ts + [s], off) == TransfersSlots(ts, off) + TransferSlots(s, off + |PrintTransfers(ts)|)
  {
    hide PrintTransfer, TransferSlots;
    if ts == [] {
      assert [] + [s] == [s] && [s][1..] == [];
    } else {
      SlotsAppend(ts[1..], s, off + |PrintTransfer(ts[0])|);
      assert (ts + [s])[1..] == ts[1..] + [s];
    }
  }

  lemma StatesStep(t: Target, b: seq<byte>, off: nat, done: seq<Transfer>, at: nat)
    requires StatesSoFar(t, b, off, done, at) && at < |b| && b[at] == OPCODE_ST_BEGIN[0]
    ensures var r := TransferAt(b, at);
            if 3 * |done| + 3 > t.maxParams || r.Bad? then TransfersAt(t, b, off, 0) == Bad
            else
              && StatesSoFar(t, b, off, done + [r.value], r.end)
              && TransfersSlots(done + [r.value], off) == TransfersSlots(done, off) + TransferSlots(r.value, at)
  {
    hide TransferAt, PrintTransfer, PrintTransfers, TransfersSlots, TransferSlots, TransferOk, Prepend;
    var r := TransferAt(b, at);
    if 3 * |done| + 3 <= t.maxParams && r.At? {
      TransferParse(b, at, r.value, r.end);
      PrintAppend(done, r.value);
      SlotsAppend(done, r.value, off);
      PrependCons(done, r.value, TransfersAt(t, b, r.end, 3 * |done| + 3));
    }
  }

  lemma StatesFinish(t: Target, b: seq<byte>, off: nat, done: seq<Transfer>, at: nat)
    requires StatesSoFar(t, b, off, done, at) && !(at < |b| && b[at] == OPCODE_ST_BEGIN[0])
    ensures TransfersAt(t, b, off, 0) == At(done, at)
  {
    PrependNil<Transfer>(Bad);
  }

  /** The list of transfers. The loop reads the byte at the offset without a test: the offset stays
      inside because a transfer ends with 0x6c while the last byte is 0x00. */
  method NativeTransferParams(t: Target, buf: Buffer, tx: Transaction, ghost call: Call) returns (status: Status)
    requires buf.Valid() && buf.offset < |buf.bytes| <= t.maxTx && tx.parameters.Length == t.maxParams
    requires buf.bytes[|buf.bytes| - 1] == 0x00
    modifies buf, tx.parameters
    ensures buf.Valid()
    ensures var off := old(buf.offset);
            var r := TransferBody(t, buf.bytes, off, call);
            && status == (if r.Body? then OK else BYTECODE_WRONG)
            && (status == OK ==>
                  && buf.offset == r.end && r.payload.TransferList?
                  && StoredSlots(tx.parameters[..], old(tx.parameters[..]), TransfersSlots(r.payload.states, off)))
  {
    hide StatesSoFar, TransfersAt, TransferAt, TransfersSlots, TransferSlots, Occurs, Outside, CountAt;
    var num := 0;
    var cur := 0;
    ghost var b, off, done, was := buf.bytes, buf.offset, [], tx.parameters[..];
    StatesStart(t, b, off, was);
    while buf.bytes[buf.offset] == OPCODE_ST_BEGIN[0]
      invariant buf.Valid() && buf.offset < |b| && num == |done| && cur == 3 * num <= t.maxParams
      invariant StatesSoFar(t, b, off, done, buf.offset)
      invariant tx.parameters[..cur] == TransfersSlots(done, off) && Outside(tx.parameters[..], was, 0, cur)
      decreases |b| - buf.offset
    {
      ghost var r, from, before := TransferAt(b, buf.offset), cur, tx.parameters[..];
      StatesStep(t, b, off, done, buf.offset);
      var ok;
      ok, cur := ParseTransferState(t, buf, tx.parameters, cur);
      if !ok {
        return BYTECODE_WRONG;
      }
      SlotsStep(tx.parameters[..], before, was, from, cur);
      done := done + [r.value];
      num := num + 1;
    }
    StatesFinish(t, b, off, done, buf.offset);
    SlotsStored(tx.parameters[..], was, TransfersSlots(done, off));
    var ok := CheckAmount(buf, num);
    if ok {
      ok := CheckConstant(buf, OPCODE_PACK);
    }
    status := if ok then OK else BYTECODE_WRONG;
  }

  /** The slots hold `s` in front, and are otherwise as they were. */
  predicate StoredSlots(now: seq<Slot>, was: seq<Slot>, s: seq<Slot>) {
    |now| == |was| && |s| <= |now| && now == s + was[|s|..]
  }

  lemma SlotsStored(now: seq<Slot>, was: seq<Slot>, s: seq<Slot>)
    requires |s| <= |now| && now[..|s|] == s && Outside(now, was, 0, |s|)
    ensures StoredSlots(now, was, s)
  {
    assert now[|s|..] == was[|s|..];
    assert now == now[..|s|] + now[|s|..];
  }

  /** The signatures of a registered contract are those of the tables, so key lists come early. */
  lemma RegisteredKinds(addr: seq<byte>, name: seq<byte>)
    ensures var e := Lookup(addr, name); e.Some? ==> PairsEarly(e.value.kinds)
  {
    hide FindContract, FindMethod;
    if Lookup(addr, name).Some? {
      RegisteredCalls(addr, name);
    }
  }

  /** The method of contract `c` with the given name, parsed if there is one. */
  method ParseMethodOf(t: Target, buf: Buffer, tx: Transaction, c: Contract, name: seq<byte>)
    returns (status: Status, paramsNum: nat)
    requires buf.Valid() && |buf.bytes| <= t.maxTx && tx.parameters.Length == t.maxParams
    requires forall kinds :: FindMethod(c.methods, name, 0) == Some(kinds) ==> PairsEarly(kinds)
    modifies buf, tx.parameters
    ensures buf.Valid()
    ensures var off := old(buf.offset);
            var kinds := FindMethod(c.methods, name, 0);
            if kinds.None? then status == TX_NOT_DEFINED && tx.parameters[..] == old(tx.parameters[..])
            else
              var r := ArgsAt(t, tx.vm, buf.bytes, off, kinds.value, 0);
              && status == (if r.Bad? then BYTECODE_WRONG else OK)
              && (status == OK ==>
                    && buf.offset == r.end && paramsNum == |r.value|
                    && StoredSlots(tx.parameters[..], old(tx.parameters[..]), ArgsSlots(tx.vm, r.value, off)))
  {
    hide ArgsAt, ArgsSlots, PairsEarly;
    paramsNum := 0;
    var j := 0;
    while j < |c.methods|
      invariant j <= |c.methods| && FindMethod(c.methods, name, 0) == FindMethod(c.methods, name, j)
      invariant buf.Valid() && buf.offset == old(buf.offset) && tx.parameters[..] == old(tx.parameters[..])
    {
      if name == c.methods[j].name {
        ghost var was, off := tx.parameters[..], buf.offset;
        var ok;
        ok, paramsNum := ParseMethodParams(t, tx.vm, buf, tx.parameters, c.methods[j].kinds);
        if ok {
          var r := ArgsAt(t, tx.vm, buf.bytes, off, c.methods[j].kinds, 0);
          SlotsStored(tx.parameters[..], was, ArgsSlots(tx.vm, r.value, off));
        }
        return if ok then OK else BYTECODE_WRONG, paramsNum;
      }
      j := j + 1;
    }
    status := TX_NOT_DEFINED;
  }

  /** The loop over the registered contracts. */
  method ParseRegistered(t: Target, buf: Buffer, tx: Transaction, call: Call) returns (status: Status, paramsNum: nat)
    requires buf.Valid() && |buf.bytes| <= t.maxTx && tx.parameters.Length == t.maxParams
    modifies buf, tx`ticker, tx`decimals, tx.parameters
    ensures buf.Valid()
    ensures var off := old(buf.offset);
            var e := Lookup(call.addr, call.name);
            if e.None? then status == TX_NOT_DEFINED && tx.parameters[..] == old(tx.parameters[..])
            else
              var r := ArgsAt(t, tx.vm, buf.bytes, off, e.value.kinds, 0);
              && status == (if r.Bad? then BYTECODE_WRONG else OK)
              && (status == OK ==>
                    && buf.offset == r.end && paramsNum == |r.value|
                    && StoredSlots(tx.parameters[..], old(tx.parameters[..]), ArgsSlots(tx.vm, r.value, off))
                    && tx.ticker == Ticker(call.addr)
                    && tx.decimals == (if tx.vm == NativeVm then old(tx.decimals)
                                       else Decimals(tx.vm, call.addr, call.name)))
  {
    hide ArgsAt, ArgsSlots, PairsEarly, FindMethod, StoredSlots;
    paramsNum := 0;
    RegisteredKinds(call.addr, call.name);
    var payload := CONTRACTS;
    var i := 0;
    while i < |payload|
      invariant i <= |payload| && FindContract(call.addr, 0) == FindContract(call.addr, i)
      invariant buf.Valid() && buf.offset == old(buf.offset) && tx.decimals == old(tx.decimals)
      invariant tx.parameters[..] == old(tx.parameters[..])
    {
      if call.addr == payload[i].addr {
        tx.ticker := payload[i].ticker;
        if tx.vm != NativeVm {
          tx.decimals := payload[i].decimals;
        }
        status, paramsNum := ParseMethodOf(t, buf, tx, payload[i], call.name);
        return;
      }
      i := i + 1;
    }
    status := TX_NOT_DEFINED;
  }

  /** Slots of a parsed body whose parameters start at `off`. */
  function BodySlots(p: Payload, off: nat): seq<Slot> {
    match p
    case TransferList(states, _, _) => TransfersSlots(states, off)
    case NativeCall(args, _) => ArgsSlots(NativeVm, args, off + 3)
    case NeoCall(args, _, _) => ArgsSlots(NeoVm, args, off)
    case WasmCall(args, _) => ArgsSlots(WasmVm, args, off)
  }

  function BodyStatus(r: Body): Status {
    match r
    case BadBody => BYTECODE_WRONG
    case UndefinedBody => TX_NOT_DEFINED
    case Body(_, _) => OK
  }

  /** What must follow the parameters, by contract type. */
  method CloseParams(buf: Buffer, vm: Vm, paramsNum: nat, ghost args: seq<Value>, ghost call: Call)
    returns (status: Status)
    requires buf.Valid() && paramsNum == |args|
    modifies buf
    ensures buf.Valid()
    ensures var r := CloseBody(vm, buf.bytes, args, old(buf.offset), call);
            status == BodyStatus(r) && (status == OK ==> buf.offset == r.end)
  {
    hide Occurs, CountAt;
    status := BYTECODE_WRONG;
    var ok := true;
    if vm == NativeVm {
      ok := CheckConstant(buf, OPCODE_ST_END);
    }
    if vm == NeoVm {
      ok := CheckAmount(buf, paramsNum);
      if ok {
        ok := CheckConstant(buf, OPCODE_PACK);
      }
    }
    if vm == WasmVm {
      ok := CheckConstant(buf, OPCODE_END);
    }
    if ok {
      status := OK;
    }
  }

  /** Arguments by the registered signature, then what must follow them. */
  method ParseArgs(t: Target, buf: Buffer, tx: Transaction, call: Call) returns (status: Status)
    requires buf.Valid() && |buf.bytes| <= t.maxTx && tx.parameters.Length == t.maxParams
    modifies buf, tx`ticker, tx`decimals, tx.parameters
    ensures buf.Valid()
    ensures var off := old(buf.offset);
            var r := ArgsBody(t, tx.vm, buf.bytes, off, call);
            && status == BodyStatus(r)
            && (status == TX_NOT_DEFINED ==> tx.parameters[..] == old(tx.parameters[..]))
            && (status == OK ==>
                  && buf.offset == r.end && !r.payload.TransferList? && VmOf(r.payload) == tx.vm
                  && StoredSlots(tx.parameters[..], old(tx.parameters[..]), ArgsSlots(tx.vm, r.payload.args, off))
                  && tx.ticker == Ticker(call.addr)
                  && tx.decimals == (if tx.vm == NativeVm then old(tx.decimals)
                                     else Decimals(tx.vm, call.addr, call.name)))
  {
    hide CloseBody, ArgsAt, ArgsSlots, Lookup, StoredSlots, Decimals, Ticker;
    ghost var b, off := buf.bytes, buf.offset;
    var paramsNum;
    status, paramsNum := ParseRegistered(t, buf, tx, call);
    if status != OK {
      return;
    }
    ghost var args := ArgsAt(t, tx.vm, b, off, Lookup(call.addr, call.name).value.kinds, 0);
    CloseShape(tx.vm, b, args.value, args.end, call);
    status := CloseParams(buf, tx.vm, paramsNum, args.value, call);
  }

  /** Decimals of a native contract, before its parameters are parsed. */
  method SetNativeDecimals(tx: Transaction, call: Call)
    modifies tx`decimals
    ensures tx.decimals == Decimals(NativeVm, call.addr, call.name)
  {
    tx.decimals := 0;
    if IsToken(call.addr) {
      tx.decimals := if call.addr == ONG_ADDR then 9 else 0;
      if IsV2(call.name) {
        tx.decimals := tx.decimals + 9;
      }
    }
  }

  method DeserializeParams(t: Target, buf: Buffer, tx: Transaction) returns (status: Status)
    requires buf.Valid() && |buf.bytes| <= t.maxTx && tx.parameters.Length == t.maxParams
    requires tx.addr.Slot? && InBytes(buf.bytes, tx.addr) && tx.name.Slot? && InBytes(buf.bytes, tx.name)
    requires tx.vm == NativeVm ==> buf.offset < |buf.bytes| && buf.bytes[|buf.bytes| - 1] == 0x00
    modifies buf, tx`ticker, tx`decimals, tx.parameters
    ensures buf.Valid()
    ensures var call := Call(SlotBytes(buf.bytes, tx.addr), SlotBytes(buf.bytes, tx.name));
            var off := old(buf.offset);
            var r := BodyAt(t, tx.vm, buf.bytes, off, call);
            && status == BodyStatus(r)
            && (status == TX_NOT_DEFINED ==> tx.parameters[..] == old(tx.parameters[..]))
            && (status == OK ==>
                  && buf.offset == r.end
                  && StoredSlots(tx.parameters[..], old(tx.parameters[..]), BodySlots(r.payload, off))
                  && tx.ticker == Ticker(call.addr) && tx.decimals == Decimals(tx.vm, call.addr, call.name))
  {
    hide TransferBody, ArgsBody, ArgsSlots, Occurs, StoredSlots, TransfersSlots, Decimals, Ticker, IsToken, IsTransfer;
    var call := Call(SlotBytes(buf.bytes, tx.addr), SlotBytes(buf.bytes, tx.name));
    if tx.vm == NativeVm {
      SetNativeDecimals(tx, call);
      if IsToken(call.addr) && IsTransfer(call.name) {
        BodyOfTransfer(t, buf.bytes, buf.offset, call);
        tx.ticker := if call.addr == ONT_ADDR then "ONT" else "ONG";
        status := NativeTransferParams(t, buf, tx, call);
        return;
      }
      var ok := CheckConstant(buf, OPCODE_ST_BEGIN);
      if !ok {
        return BYTECODE_WRONG;
      }
    }
    status := ParseArgs(t, buf, tx, call);
  }

  lemma BodyOfTransfer(t: Target, b: seq<byte>, off: nat, call: Call)
    requires IsToken(call.addr) && IsTransfer(call.name)
    ensures var r := BodyAt(t, NativeVm, b, off, call);
            r == TransferBody(t, b, off, call) && (r.Body? ==> r.payload.TransferList?) && !r.UndefinedBody?
    ensures Ticker(call.addr) == if call.addr == ONT_ADDR then "ONT" else "ONG"
  {
    hide TransfersAt, CountAt, Occurs;
  }

  lemma CloseShape(vm: Vm, b: seq<byte>, args: seq<Value>, e: nat, call: Call)
    ensures var r := CloseBody(vm, b, args, e, call);
            r.Body? ==> VmOf(r.payload) == vm && !r.payload.TransferList? && r.payload.args == args
    ensures !CloseBody(vm, b, args, e, call).UndefinedBody?
  {
    hide CountAt, Occurs;
  }

  // ----- the whole transaction

  /** The slots of an accepted payload are those of its body. */
  lemma SlotsOfBody(t: Target, b: seq<byte>, off: nat, vm: Vm)
    requires off + TrailerLength(vm) <= |b|
    ensures var m := MethodAt(b, off, vm);
            m.Some? ==> forall p: Payload :: VmOf(p) == vm && p.call.name == m.value.name ==>
              BodySlots(p, m.value.start) == PayloadSlots(p, off)
  {
    hide Scan, TransfersSlots, ArgsSlots;
  }

  lemma FirstByteIsZero(b: seq<byte>)
    ensures HeaderAt(b).Some? ==> |b| >= 42 && b[0] == 0
  {
  }

  /** The last byte of a native transaction is zero. */
  lemma NativeEndsInZero(b: seq<byte>, off: nat, txType: byte)
    ensures var c := ContractAt(b, off, txType);
            c.Some? && c.value.vm == NativeVm ==> |b| > 0 && b[|b| - 1] == 0
  {
  }

  /** What the parser leaves in `tx` for the bytes `b`; `was` are the slots it started with. */
  ghost predicate Records(t: Target, b: seq<byte>, tx: Transaction, was: seq<Slot>)
    reads tx, tx.parameters
  {
    && (!PassesGate(t, b) ==> tx.parameters[..] == was)
    && match Deserialize(t, b)
       case Accepted(ast) =>
         && tx.Stores(b, ast.header) && tx.Calls(b, VmOf(ast.payload), ast.payload.call)
         && StoredSlots(tx.parameters[..], was, PayloadSlots(ast.payload, SizeAt(t, b, 42).end))
         && tx.ticker == Ticker(ast.payload.call.addr)
         && tx.decimals == Decimals(VmOf(ast.payload), ast.payload.call.addr, ast.payload.call.name)
       case Undefined(h, found, name) =>
         tx.Stores(b, h) && tx.Calls(b, found.vm, Call(found.addr, name)) && tx.parameters[..] == was
       case _ => true
  }

  /** The stages behind the size test. */
  method DeserializePayload(t: Target, buf: Buffer, tx: Transaction, ghost h: Header, ghost s: ParserSpec.Parsed<Sized>)
    returns (status: Status)
    requires buf.Valid() && |buf.bytes| <= t.maxTx && tx.parameters.Length == t.maxParams
    requires s.At? && buf.offset == s.end && 42 < s.end && |buf.bytes| > 0 && buf.bytes[0] == 0
    requires tx.txType == h.txType
    modifies buf, tx`vm, tx`addr, tx`ticker, tx`decimals, tx`name, tx.parameters
    ensures buf.Valid()
    ensures status == StatusOf(PayloadAt(t, buf.bytes, h, s))
    ensures var b := buf.bytes;
            match PayloadAt(t, b, h, s)
            case Accepted(ast) =>
              && tx.Calls(b, VmOf(ast.payload), ast.payload.call)
              && StoredSlots(tx.parameters[..], old(tx.parameters[..]), PayloadSlots(ast.payload, s.end))
              && tx.ticker == Ticker(ast.payload.call.addr)
              && tx.decimals == Decimals(VmOf(ast.payload), ast.payload.call.addr, ast.payload.call.name)
            case Undefined(_, found, name) =>
              tx.Calls(b, found.vm, Call(found.addr, name)) && tx.parameters[..] == old(tx.parameters[..])
            case _ => true
  {
    hide ContractAt, MethodAt, BodyAt, BodySlots, PayloadSlots, StoredSlots, Decimals, Ticker;
    ghost var b := buf.bytes;
    NativeEndsInZero(b, s.end, h.txType);
    status := DeserializeContract(buf, tx);
    if status != OK {
      return;
    }
    SlotsOfBody(t, b, s.end, tx.vm);
    status := DeserializeMethod(t, buf, tx, s.end);
    if status != OK {
      return;
    }
    BodyShape(t, tx.vm, b, buf.offset, Call(SlotBytes(b, tx.addr), SlotBytes(b, tx.name)));
    StartInside(b, s.end, tx.vm);
    status := DeserializeParams(t, buf, tx);
    if status != OK {
      return;
    }
    var len: nat;
    match tx.vm {
      case NativeVm => len := tx.name.len + 1 + NATIVE_TRAILER;
      case NeoVm => len := tx.name.len + 1 + NEOVM_TRAILER;
      case WasmVm => len := 0;
    }
    status := if buf.offset + len == |buf.bytes| then OK else LENGTH_WRONG;
  }

  lemma StartInside(b: seq<byte>, off: nat, vm: Vm)
    requires off + TrailerLength(vm) <= |b|
    ensures var m := MethodAt(b, off, vm); m.Some? && vm != WasmVm ==> m.value.start == off < |b|
  {
    hide Scan;
  }

  method TransactionDeserialize(t: Target, buf: Buffer, tx: Transaction) returns (status: Status)
    requires buf.Valid() && buf.offset == 0 && tx.parameters.Length == t.maxParams
    modifies buf, tx, tx.parameters
    ensures status == StatusOf(Deserialize(t, buf.bytes))
    ensures Records(t, buf.bytes, tx, old(tx.parameters[..]))
  {
    hide HeaderAt, SizeAt, SizeMatches, PayloadAt, PayloadSlots, StoredSlots, Decimals, Ticker;
    ghost var b := buf.bytes;
    FirstByteIsZero(b);
    status := DeserializeHeader(t, buf, tx);
    if status != OK {
      return;
    }
    status := DeserializePayloadSize(t, buf);
    if status != OK {
      return;
    }
    ghost var h, s := HeaderAt(b).value, SizeAt(t, b, 42);
    OutcomeHeader(t, b, h, s);
    status := DeserializePayload(t, buf, tx, h, s);
  }

  /** Whatever is recognised keeps the parsed header. */
  lemma OutcomeHeader(t: Target, b: seq<byte>, h: Header, s: ParserSpec.Parsed<Sized>)
    requires s.At?
    ensures match PayloadAt(t, b, h, s)
            case Accepted(ast) => ast.header == h
            case Undefined(h', _, _) => h' == h
            case _ => true
  {
    hide ContractAt, MethodAt, BodyAt;
  }
}
