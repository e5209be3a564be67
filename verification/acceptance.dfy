/**
 The central law of the parser: the app accepts exactly the printed well-formed transactions, and
 recovers the transaction. Header and size first, then what follows the size prefix.
 */
module Acceptance {
  import opened Options
  import opened Bytes
  import opened TxTypes
  import opened Contracts
  import opened Grammar
  import opened ParserSpec
  import opened GrammarProofs

  lemma HeaderPartsOccur(b: seq<byte>, h: Header)
    ensures Occurs(b, 0, PrintHeader(h)) <==>
            && Occurs(b, 0, [0, h.txType]) && Occurs(b, 2, LeBytes(h.nonce, 4)) && Occurs(b, 6, LeBytes(h.gasPrice, 8))
            && Occurs(b, 14, LeBytes(h.gasLimit, 8)) && Occurs(b, 22, h.payer)
    ensures |PrintHeader(h)| == 22 + |h.payer|
  {
    hide Occurs;
    var s3 := LeBytes(h.gasLimit, 8) + h.payer;
    var s2 := LeBytes(h.gasPrice, 8) + s3;
    var s1 := LeBytes(h.nonce, 4) + s2;
    OccursCat(b, 0, [0, h.txType], s1);
    OccursCat(b, 2, LeBytes(h.nonce, 4), s2);
    OccursCat(b, 6, LeBytes(h.gasPrice, 8), s3);
    OccursCat(b, 14, LeBytes(h.gasLimit, 8), h.payer);
  }

  lemma HeaderParse(b: seq<byte>, h: Header)
    ensures HeaderAt(b) == Some(h) <==> HeaderOk(h) && Occurs(b, 0, PrintHeader(h))
  {
    hide LeValue, LeBytes, PrintHeader, Pow256, Times, Quot;
    HeaderPartsOccur(b, h);
    Pow256Values();
    if |b| >= 42 {
      assert Occurs(b, 0, [0, h.txType]) <==> b[0] == 0 && b[1] == h.txType by {
        OccursCat(b, 0, [0], [h.txType]);
        OccursByte(b, 0, 0);
        OccursByte(b, 1, h.txType);
        assert [0, h.txType] == [0] + [h.txType];
      }
      LeField(b, 2, 4, h.nonce);
      LeField(b, 6, 8, h.gasPrice);
      LeField(b, 14, 8, h.gasLimit);
      if h.gasPrice >= GAS_PRICE_MIN {
        LimitMeans(TOKEN_AMOUNT, h.gasPrice, h.gasLimit);
      }
    }
  }

  /** A prefixed little-endian number of `n` bytes. */
  lemma PrefixedNumber(b: seq<byte>, off: nat, first: byte, n: nat, v: nat)
    ensures Occurs(b, off, [first] + LeBytes(v, n)) && v < Pow256(n) <==>
            off < |b| && b[off] == first && off + 1 + n <= |b| && LeValue(b[off + 1..off + 1 + n]) == v
  {
    hide LeValue, LeBytes, Pow256;
    OccursCat(b, off, [first], LeBytes(v, n));
    OccursByte(b, off, first);
    if off + 1 + n <= |b| {
      LeField(b, off + 1, n, v);
    }
  }

  lemma SizeParse(t: Target, b: seq<byte>, off: nat, form: SizeForm, n: nat, e: nat)
    ensures SizeAt(t, b, off) == At(Sized(form, n), e) <==>
            SizeOk(t, form, n) && Occurs(b, off, PrintSize(t, form, n)) && e == off + |PrintSize(t, form, n)|
  {
    hide Occurs, LeValue, LeBytes, Pow256;
    Pow256Values();
    match form
    case OneByte => OccursByte(b, off, n % 256);
    case TwoBytes => PrefixedNumber(b, off, 0xfd, 2, n);
    case FourBytes => PrefixedNumber(b, off, 0xfe, 4, n);
    case EightBytes(excess) => EightByteSizeParse(t, b, off, excess, n, e);
  }

  lemma EightByteSizeParse(t: Target, b: seq<byte>, off: nat, excess: nat, n: nat, e: nat)
    ensures var form := EightBytes(excess);
            SizeAt(t, b, off) == At(Sized(form, n), e) <==>
            SizeOk(t, form, n) && Occurs(b, off, PrintSize(t, form, n)) && e == off + |PrintSize(t, form, n)|
  {
    hide Occurs, LeValue, LeBytes, Pow256;
    Pow256Values();
    var v := Restored(t, n, excess);
    PrefixedNumber(b, off, 0xff, 8, v);
    if off + 9 <= |b| {
      DroppedRestored(t, LeValue(b[off + 1..off + 9]), n, excess);
      LeValueBound(b[off + 1..off + 9]);
    }
  }

  // ----- contract and method name

  lemma NativeTrailerParse(b: seq<byte>, p: nat, addr: seq<byte>)
    requires p + NATIVE_TRAILER == |b| && |addr| == 20
    ensures NativeTrailerAt(b, p) && b[p + 1..p + 21] == addr <==>
            Occurs(b, p, PrintTrailer(NativeVm, addr)) && b[|b| - 1] == 0
  {
    OccursCat(b, p, PrintLenAddr(addr), OPCODE_SYSCALL + NATIVE_INVOKE);
    OccursCat(b, p + 21, OPCODE_SYSCALL, NATIVE_INVOKE);
    LenAddrParse(b, p, addr);
  }

  lemma ContractParse(b: seq<byte>, off: nat, vm: Vm, addr: seq<byte>)
    requires vm != WasmVm
    ensures ContractAt(b, off, 0xd1) == Some(Found(vm, addr)) <==>
            && |addr| == 20 && off + TrailerLength(vm) <= |b|
            && Occurs(b, |b| - TrailerLength(vm), PrintTrailer(vm, addr)) && b[|b| - 1] == 0
  {
    if off + TrailerLength(vm) <= |b| && |addr| == 20 {
      var p := |b| - TrailerLength(vm);
      match vm
      case NativeVm =>
        NativeTrailerParse(b, p, addr);
        if Occurs(b, p + 23, NATIVE_INVOKE) {
          assert b[p + 25] == b[p + 23..p + 46][2];
        }
      case NeoVm =>
        OccursCat(b, p, OPCODE_APPCALL, addr);
        OccursByte(b, p, 0x67);
    }
  }

  lemma NameParse(b: seq<byte>, cur: nat, sEnd: nat, name: seq<byte>)
    requires 0 < cur && sEnd < |b|
    ensures NameFills(b, cur, sEnd) && b[cur + 1..sEnd] == name <==>
            1 <= |name| < 256 && Occurs(b, cur, PrintName(name)) && cur + 1 + |name| == sEnd
  {
    OccursCat(b, cur, [|name| % 256], name);
    OccursByte(b, cur, |name| % 256);
  }

  // ----- the backward scan

  /** The scan passes over positions without a terminator. */
  lemma {:induction false} ScanSkips(b: seq<byte>, native: bool, sBegin: nat, sEnd: nat, i: nat, j: nat)
    requires sBegin <= j <= i
    requires forall k :: j < k <= i ==> TerminatorAt(b, native, sEnd, k) == None
    ensures Scan(b, native, sBegin, sEnd, i) == Scan(b, native, sBegin, sEnd, j)
    decreases i
  {
    if i > j {
      ScanSkips(b, native, sBegin, sEnd, i - 1, j);
    }
  }

  /** A registered name and the trailer behind it contain nothing the scan takes for a terminator. */
  lemma NoTerminatorInName(b: seq<byte>, vm: Vm, cur: nat, sEnd: nat, name: seq<byte>, addr: seq<byte>, k: nat)
    requires vm != WasmVm && GoodSig(MethodSig(name, [AddrKind])) && |addr| == 20 && addr[0] != OPCODE_PACK[0]
    requires 0 < cur && sEnd == cur + 1 + |name|
    requires Occurs(b, cur, PrintName(name)) && Occurs(b, sEnd, PrintTrailer(vm, addr))
    requires cur <= k <= sEnd + 1
    ensures TerminatorAt(b, vm == NativeVm, sEnd, k) == None
  {
    var w := b[cur..cur + 1 + |name|];
    assert b[cur] == w[0] == |name|;
    assert forall x :: cur < x < sEnd ==> b[x] == w[x - cur] == name[x - cur - 1];
    var u := b[sEnd..sEnd + |PrintTrailer(vm, addr)|];
    assert b[sEnd] == u[0] && b[sEnd + 1] == u[1] == addr[0];
    assert forall x :: cur <= x <= sEnd ==> b[x] < 0x80;
    if k < sEnd + 1 {
      assert b[k] < 0x80;
    }
    TerminatorBytes(b, k);
  }

  lemma TerminatorBytes(b: seq<byte>, k: nat)
    ensures Occurs(b, k, OPCODE_PARAM_ST_END) ==>
            b[k] == 0x6a && b[k + 1] == 0x7c && b[k + 2] == 0xc8 && b[k + 3] == 0x6c
    ensures Occurs(b, k, OPCODE_PACK) ==> b[k] == 0xc1
  {
    if k + 4 <= |b| {
      var w := b[k..k + 4];
      assert w[0] == b[k] && w[1] == b[k + 1] && w[2] == b[k + 2] && w[3] == b[k + 3];
    }
    OccursByte(b, k, 0xc1);
  }

  /** The text of arguments to a native call ends with the parameter separator. */
  lemma {:induction false} ArgsEnd(b: seq<byte>, off: nat, vs: seq<Value>)
    requires vs != [] && Occurs(b, off, PrintArgs(NativeVm, vs))
    ensures |PrintArgs(NativeVm, vs)| >= 3
    ensures Occurs(b, off + |PrintArgs(NativeVm, vs)| - 3, OPCODE_PARAM_END)
    decreases vs
  {
    hide Occurs, PrintValue;
    var v, rest := vs[0], vs[1..];
    var m := off + |PrintValue(NativeVm, v)|;
    OccursCat(b, off, PrintValue(NativeVm, v), OPCODE_PARAM_END + PrintArgs(NativeVm, rest));
    OccursCat(b, m, OPCODE_PARAM_END, PrintArgs(NativeVm, rest));
    if rest != [] {
      ArgsEnd(b, m + 3, rest);
    }
  }

  /** A body that ends with PACK. */
  lemma PackedEnd(b: seq<byte>, off: nat, args: seq<byte>, count: Amount)
    requires Occurs(b, off, args + (PrintAmount(count) + OPCODE_PACK))
    ensures Occurs(b, off + |args| + |PrintAmount(count)|, OPCODE_PACK)
  {
    hide Occurs, PrintAmount;
    OccursCat(b, off, args, PrintAmount(count) + OPCODE_PACK);
    OccursCat(b, off + |args|, PrintAmount(count), OPCODE_PACK);
  }

  /** The body of a native call ends with the separator and the end-of-state opcode. */
  lemma NativeCallEnd(t: Target, b: seq<byte>, off: nat, p: Payload)
    requires p.NativeCall? && BodyOk(t, p) && Occurs(b, off, PrintBody(p))
    ensures |PrintBody(p)| > 4 && Occurs(b, off + |PrintBody(p)| - 4, OPCODE_PARAM_ST_END)
  {
    hide Occurs, PrintArgs, Lookup, ValueOk;
    var args := p.args;
    RegisteredCalls(p.call.addr, p.call.name);
    OccursCat(b, off, OPCODE_ST_BEGIN, PrintArgs(NativeVm, args) + OPCODE_ST_END);
    OccursCat(b, off + 3, PrintArgs(NativeVm, args), OPCODE_ST_END);
    ArgsEnd(b, off + 3, args);
    assert OPCODE_PARAM_ST_END == OPCODE_PARAM_END + OPCODE_ST_END;
    OccursCat(b, off + |PrintBody(p)| - 4, OPCODE_PARAM_END, OPCODE_ST_END);
  }

  /** What the scan meets first, coming from the trailer, is the end of the body. */
  predicate EndsAt(b: seq<byte>, native: bool, sBegin: nat, c: nat) {
    || (sBegin < c && Occurs(b, c - 1, OPCODE_PACK))
    || (native && sBegin + 4 < c && Occurs(b, c - 4, OPCODE_PARAM_ST_END))
  }

  /** The last bytes of a body are a terminator. */
  lemma BodyTerminator(t: Target, b: seq<byte>, off: nat, p: Payload)
    requires !p.WasmCall? && BodyOk(t, p) && Occurs(b, off, PrintBody(p))
    ensures EndsAt(b, VmOf(p) == NativeVm, off, off + |PrintBody(p)|)
  {
    hide Occurs, PrintArgs, PrintTransfers, PrintAmount, BodyOk;
    match p
    case TransferList(states, count, _) => PackedEnd(b, off, PrintTransfers(states), count);
    case NeoCall(args, count, _) => PackedEnd(b, off, PrintArgs(NeoVm, args), count);
    case NativeCall(args, call) => NativeCallEnd(t, b, off, p);
  }

  /** From the trailer down to `c` there is no terminator, and `c` has one behind it. */
  lemma ScanStops(b: seq<byte>, native: bool, sBegin: nat, c: nat, sEnd: nat)
    requires c < sEnd && EndsAt(b, native, sBegin, c)
    requires forall k :: c <= k <= sEnd + 1 ==> TerminatorAt(b, native, sEnd, k) == None
    ensures Scan(b, native, sBegin, sEnd, sEnd + 1) == c
  {
    hide Occurs;
    TerminatorBytes(b, c - 1);
    if Occurs(b, c - 1, OPCODE_PACK) {
      ScanSkips(b, native, sBegin, sEnd, sEnd + 1, c - 1);
    } else {
      TerminatorBytes(b, c - 2);
      TerminatorBytes(b, c - 3);
      TerminatorBytes(b, c - 4);
      forall k | c - 4 < k <= sEnd + 1
        ensures TerminatorAt(b, native, sEnd, k) == None
      {
        assert k == c - 3 || k == c - 2 || k == c - 1 || c <= k;
      }
      ScanSkips(b, native, sBegin, sEnd, sEnd + 1, c - 4);
    }
  }

  /** The scan finds the end of the body of every well-formed payload. */
  lemma ScanFinds(t: Target, b: seq<byte>, off: nat, p: Payload, sEnd: nat)
    requires !p.WasmCall? && BodyOk(t, p) && Lookup(p.call.addr, p.call.name).Some? && off > 0
    requires sEnd == off + |PrintBody(p)| + 1 + |p.call.name|
    requires Occurs(b, off, PrintBody(p)) && Occurs(b, off + |PrintBody(p)|, PrintName(p.call.name))
    requires Occurs(b, sEnd, PrintTrailer(VmOf(p), p.call.addr))
    ensures Scan(b, VmOf(p) == NativeVm, off, sEnd, sEnd + 1) == off + |PrintBody(p)|
  {
    hide Occurs, PrintBody, BodyOk, Lookup, PrintName, PrintTrailer;
    var c, native := off + |PrintBody(p)|, VmOf(p) == NativeVm;
    RegisteredCalls(p.call.addr, p.call.name);
    BodyTerminator(t, b, off, p);
    forall k | c <= k <= sEnd + 1
      ensures TerminatorAt(b, native, sEnd, k) == None
    {
      NoTerminatorInName(b, VmOf(p), c, sEnd, p.call.name, p.call.addr, k);
    }
    ScanStops(b, native, off, c, sEnd);
  }

  // ----- bodies

  /** Bytes that BodyAt consumes behind the printed body: the final 0x00 of WebAssembly calls. */
  function BodyTail(vm: Vm): seq<byte> {
    if vm == WasmVm then OPCODE_END else []
  }

  lemma PackedParse(b: seq<byte>, off: nat, args: seq<byte>, n: nat, count: Amount)
    requires Counts(count, n)
    ensures Occurs(b, off, args + (PrintAmount(count) + OPCODE_PACK)) <==>
            var m := off + |args|;
            var e := m + |PrintAmount(count)|;
            Occurs(b, off, args) && CountAt(b, m, n) == At(count, e) && Occurs(b, e, OPCODE_PACK)
  {
    hide Occurs, PrintAmount, CountAt;
    var m := off + |args|;
    OccursCat(b, off, args, PrintAmount(count) + OPCODE_PACK);
    OccursCat(b, m, PrintAmount(count), OPCODE_PACK);
    CountParse(b, m, n, count, m + |PrintAmount(count)|);
  }

  /** An amount other than Zero does not look like the opening of a transfer. */
  lemma CountIsNotState(b: seq<byte>, off: nat, n: nat, a: Amount, e: nat)
    requires CountAt(b, off, n) == At(a, e)
    ensures !(off < |b| && b[off] == 0x00) <==> !a.Zero?
  {
  }

  lemma TransferBodyParse(t: Target, b: seq<byte>, off: nat, call: Call, p: Payload, e: nat)
    requires off <= |b|
    requires IsToken(call.addr) && IsTransfer(call.name)
    ensures TransferBody(t, b, off, call) == Body(p, e) <==>
            && p.TransferList? && p.call == call && BodyOk(t, p)
            && Occurs(b, off, PrintBody(p)) && e == off + |PrintBody(p)|
  {
    hide Occurs, TransfersAt, CountAt, PrintTransfers, PrintAmount, TransfersOk, Counts, IsToken, IsTransfer;
    if p.TransferList? {
      var m := off + |PrintTransfers(p.states)|;
      var e1 := m + |PrintAmount(p.count)|;
      TransfersParse(t, b, off, 0, p.states, m);
      CountParse(b, m, |p.states|, p.count, e1);
      if Counts(p.count, |p.states|) {
        PackedParse(b, off, PrintTransfers(p.states), |p.states|, p.count);
      }
      if CountAt(b, m, |p.states|) == At(p.count, e1) {
        CountIsNotState(b, m, |p.states|, p.count, e1);
      }
      var r := TransfersAt(t, b, off, 0);
      if r.At? {
        TransfersParse(t, b, off, 0, r.value, r.end);
        var c := CountAt(b, r.end, |r.value|);
        if c.At? {
          CountParse(b, r.end, |r.value|, c.value, c.end);
        }
      }
    }
  }

  /** The shape of payload that arguments become. */
  predicate IsCallOf(p: Payload, vm: Vm, call: Call) {
    !p.TransferList? && VmOf(p) == vm && p.call == call
  }

  lemma CloseBodyParse(vm: Vm, b: seq<byte>, args: seq<Value>, off: nat, call: Call, p: Payload, e: nat)
    requires off <= |b| && IsCallOf(p, vm, call) && p.args == args
    requires vm == NativeVm ==> off >= 3 && Occurs(b, off - 3, OPCODE_ST_BEGIN)
    ensures var start := if vm == NativeVm then off - 3 else off;
            var m := off + |PrintArgs(vm, args)|;
            Occurs(b, off, PrintArgs(vm, args)) && CloseBody(vm, b, args, m, call) == Body(p, e) <==>
            && (vm == NeoVm ==> Counts(p.count, |args|))
            && Occurs(b, start, PrintBody(p) + BodyTail(vm))
            && e == start + |PrintBody(p) + BodyTail(vm)|
  {
    hide Occurs, PrintArgs, CountAt, PrintAmount, Counts;
    var text := PrintArgs(vm, args);
    match p
    case NativeCall(_, _) =>
      assert PrintBody(p) + BodyTail(vm) == OPCODE_ST_BEGIN + (text + OPCODE_ST_END);
      OccursCat(b, off - 3, OPCODE_ST_BEGIN, text + OPCODE_ST_END);
      OccursCat(b, off, text, OPCODE_ST_END);
    case NeoCall(_, count, _) =>
      assert PrintBody(p) + BodyTail(vm) == text + (PrintAmount(count) + OPCODE_PACK);
      CountParse(b, off + |text|, |args|, count, off + |text| + |PrintAmount(count)|);
      if Counts(count, |args|) {
        PackedParse(b, off, text, |args|, count);
      }
      var c := CountAt(b, off + |text|, |args|);
      if c.At? {
        CountParse(b, off + |text|, |args|, c.value, c.end);
      }
    case WasmCall(_, _) =>
      OccursCat(b, off, text, OPCODE_END);
  }

  lemma ArgsBodyParse(t: Target, vm: Vm, b: seq<byte>, off: nat, call: Call, p: Payload, e: nat)
    requires off <= |b| <= t.maxTx && IsCallOf(p, vm, call)
    requires vm == NativeVm ==> !(IsToken(call.addr) && IsTransfer(call.name))
    requires vm == NativeVm ==> off >= 3 && Occurs(b, off - 3, OPCODE_ST_BEGIN)
    ensures var start := if vm == NativeVm then off - 3 else off;
            ArgsBody(t, vm, b, off, call) == Body(p, e) <==>
            && BodyOk(t, p) && Occurs(b, start, PrintBody(p) + BodyTail(vm))
            && e == start + |PrintBody(p) + BodyTail(vm)|
  {
    hide Occurs, PrintArgs, ArgsAt, ArgsOk, Lookup, Counts, PrintBody, CountAt;
    var entry := Lookup(call.addr, call.name);
    if entry.Some? {
      var r := ArgsAt(t, vm, b, off, entry.value.kinds, 0);
      if r.At? {
        ArgsParse(t, vm, b, off, entry.value.kinds, 0, r.value, r.end);
      }
      ArgsParse(t, vm, b, off, entry.value.kinds, 0, p.args, off + |PrintArgs(vm, p.args)|);
      CloseBodyParse(vm, b, p.args, off, call, p, e);
    }
  }

  lemma BodyParse(t: Target, vm: Vm, b: seq<byte>, off: nat, call: Call, p: Payload, e: nat)
    requires off <= |b| <= t.maxTx
    ensures BodyAt(t, vm, b, off, call) == Body(p, e) <==>
            && VmOf(p) == vm && p.call == call && BodyOk(t, p)
            && Occurs(b, off, PrintBody(p) + BodyTail(vm)) && e == off + |PrintBody(p) + BodyTail(vm)|
  {
    hide Occurs, TransferBody, ArgsBody, ArgsOk, Lookup, TransfersOk, Counts, IsToken, IsTransfer, PrintArgs;
    assert PrintBody(p) + [] == PrintBody(p);
    if vm == NativeVm && IsToken(call.addr) && IsTransfer(call.name) {
      TransferBodyParse(t, b, off, call, p, e);
    } else {
      BodyIsCall(t, vm, b, off, call);
      if IsCallOf(p, vm, call) {
        if vm == NativeVm {
          if Occurs(b, off, OPCODE_ST_BEGIN) {
            ArgsBodyParse(t, vm, b, off + 3, call, p, e);
          } else {
            OccursCat(b, off, OPCODE_ST_BEGIN, PrintArgs(vm, p.args) + OPCODE_ST_END);
          }
        } else {
          ArgsBodyParse(t, vm, b, off, call, p, e);
        }
      }
    }
  }

  /** Outside the transfer lists, what is parsed is a call of the given contract and method. */
  lemma BodyIsCall(t: Target, vm: Vm, b: seq<byte>, off: nat, call: Call)
    requires !(vm == NativeVm && IsToken(call.addr) && IsTransfer(call.name))
    ensures var r := BodyAt(t, vm, b, off, call); r.Body? ==> IsCallOf(r.payload, vm, call)
  {
    hide Occurs, ArgsAt, Lookup, CountAt, IsToken, IsTransfer;
  }

  // ----- the payload

  /** A payload printed in front of its trailer. */
  lemma TrailedPartsOccur(b: seq<byte>, off: nat, p: Payload)
    requires !p.WasmCall?
    ensures Occurs(b, off, PrintPayload(p)) <==>
            var c := off + |PrintBody(p)|;
            && Occurs(b, off, PrintBody(p)) && Occurs(b, c, PrintName(p.call.name))
            && Occurs(b, c + |PrintName(p.call.name)|, PrintTrailer(VmOf(p), p.call.addr))
    ensures |PrintPayload(p)| == |PrintBody(p)| + |PrintName(p.call.name)| + |PrintTrailer(VmOf(p), p.call.addr)|
  {
    hide Occurs, PrintBody, PrintName, PrintTrailer;
    OccursCat(b, off, PrintBody(p), PrintName(p.call.name) + PrintTrailer(VmOf(p), p.call.addr));
    OccursCat(b, off + |PrintBody(p)|, PrintName(p.call.name), PrintTrailer(VmOf(p), p.call.addr));
  }

  lemma TrailerLengths(vm: Vm, addr: seq<byte>)
    requires |addr| == 20 && vm != WasmVm
    ensures |PrintTrailer(vm, addr)| == TrailerLength(vm) - 1
  {
  }

  lemma BodyRegistered(t: Target, p: Payload)
    requires BodyOk(t, p)
    ensures Lookup(p.call.addr, p.call.name).Some?
    ensures |p.call.addr| == 20 && 1 <= |p.call.name| < 0x80
  {
    hide Lookup, ArgsOk;
    if p.TransferList? {
      TransfersRegistered(p.call.addr, p.call.name);
    }
    RegisteredCalls(p.call.addr, p.call.name);
  }

  /** `b` holds payload `p` at `off` and then the single closing zero. */
  predicate HoldsPayload(t: Target, b: seq<byte>, off: nat, txType: byte, p: Payload) {
    && PayloadOk(t, p)
    && txType == (if p.WasmCall? then 0xd2 else 0xd1)
    && Occurs(b, off, PrintPayload(p)) && off + |PrintPayload(p)| + 1 == |b| && b[|b| - 1] == 0
  }

  lemma TrailedSound(t: Target, b: seq<byte>, off: nat, vm: Vm, addr: seq<byte>, named: Named, p: Payload, e: nat)
    requires off <= |b| <= t.maxTx && vm != WasmVm
    requires ContractAt(b, off, 0xd1) == Some(Found(vm, addr))
    requires MethodAt(b, off, vm) == Some(named)
    requires BodyAt(t, vm, b, named.start, Call(addr, named.name)) == Body(p, e)
    requires e + |named.name| + 1 + TrailerLength(vm) == |b|
    ensures HoldsPayload(t, b, off, 0xd1, p)
    ensures e == Scan(b, vm == NativeVm, off, |b| - TrailerLength(vm), |b| - TrailerLength(vm) + 1)
  {
    hide Occurs, ContractAt, BodyAt, PrintBody, PrintTrailer, Scan, BodyOk, PrintPayload;
    var sEnd := |b| - TrailerLength(vm);
    var cur := Scan(b, vm == NativeVm, off, sEnd, sEnd + 1);
    ContractParse(b, off, vm, addr);
    NameParse(b, cur, sEnd, named.name);
    BodyParse(t, vm, b, off, Call(addr, named.name), p, e);
    assert PrintBody(p) + BodyTail(vm) == PrintBody(p);
    assert e == cur;
    TrailerLengths(vm, addr);
    TrailedPartsOccur(b, off, p);
  }

  lemma ScannedName(b: seq<byte>, off: nat, vm: Vm, c: nat, name: seq<byte>)
    requires vm != WasmVm && off + TrailerLength(vm) <= |b| && 0 < c
    requires var sEnd := |b| - TrailerLength(vm); Scan(b, vm == NativeVm, off, sEnd, sEnd + 1) == c
    requires 1 <= |name| < 256 && Occurs(b, c, PrintName(name)) && c + 1 + |name| + TrailerLength(vm) == |b|
    ensures MethodAt(b, off, vm) == Some(Named(name, off))
  {
    hide Occurs, Scan;
    NameParse(b, c, |b| - TrailerLength(vm), name);
  }

  /** Contract and method name are found where a payload has them. */
  lemma TrailedFound(t: Target, b: seq<byte>, off: nat, txType: byte, p: Payload)
    requires 0 < off && |b| <= t.maxTx && !p.WasmCall? && HoldsPayload(t, b, off, txType, p)
    ensures txType == 0xd1 && BodyOk(t, p) && Occurs(b, off, PrintBody(p))
    ensures off + |PrintBody(p)| + 1 + |p.call.name| + TrailerLength(VmOf(p)) == |b|
    ensures ContractAt(b, off, 0xd1) == Some(Found(VmOf(p), p.call.addr))
    ensures MethodAt(b, off, VmOf(p)) == Some(Named(p.call.name, off))
  {
    hide Occurs, ContractAt, MethodAt, PrintBody, PrintTrailer, Scan, BodyOk, PrintPayload, Lookup;
    var vm, call := VmOf(p), p.call;
    TrailedPartsOccur(b, off, p);
    BodyRegistered(t, p);
    TrailerLengths(vm, call.addr);
    ContractParse(b, off, vm, call.addr);
    ScanFinds(t, b, off, p, |b| - TrailerLength(vm));
    ScannedName(b, off, vm, off + |PrintBody(p)|, call.name);
  }

  lemma TrailedComplete(t: Target, b: seq<byte>, off: nat, h: Header, s: Parsed<Sized>, p: Payload)
    requires 0 < off && |b| <= t.maxTx && !p.WasmCall? && s.At? && s.end == off
    requires HoldsPayload(t, b, off, h.txType, p)
    ensures PayloadAt(t, b, h, s) == Accepted(Tx(h, s.value.form, p))
  {
    hide Occurs, ContractAt, MethodAt, BodyAt, PrintBody, BodyOk, HoldsPayload;
    var c := off + |PrintBody(p)|;
    TrailedFound(t, b, off, h.txType, p);
    BodyParse(t, VmOf(p), b, off, p.call, p, c);
    assert PrintBody(p) + BodyTail(VmOf(p)) == PrintBody(p);
  }

  lemma WasmPartsOccur(b: seq<byte>, off: nat, addr: seq<byte>, name: seq<byte>, body: seq<byte>)
    requires |addr| == 20
    ensures Occurs(b, off, PrintWasm(addr, name, body)) <==>
            && Occurs(b, off, addr) && off + 20 < |b| && b[off + 20] == (|PrintName(name)| + |body|) % 256
            && Occurs(b, off + 21, PrintName(name)) && Occurs(b, off + 21 + |PrintName(name)|, body)
    ensures |PrintWasm(addr, name, body)| == 21 + |PrintName(name)| + |body|
  {
    hide Occurs, PrintName;
    var rem: byte := (|PrintName(name)| + |body|) % 256;
    OccursCat(b, off, addr, [rem] + (PrintName(name) + body));
    OccursCat(b, off + 20, [rem], PrintName(name) + body);
    OccursByte(b, off + 20, rem);
    OccursCat(b, off + 21, PrintName(name), body);
  }

  /** The method name of a WebAssembly call. */
  lemma WasmNameParse(b: seq<byte>, off: nat, name: seq<byte>)
    requires off + 20 <= |b|
    ensures MethodAt(b, off, WasmVm) == Some(Named(name, off + 21 + |PrintName(name)|)) <==>
            && 1 <= |name| < 256 && Occurs(b, off + 21, PrintName(name))
            && b[off + 20] != 0 && off + 22 + b[off + 20] == |b|
  {
    OccursCat(b, off + 21, [|name| % 256], name);
    OccursByte(b, off + 21, |name| % 256);
  }

  lemma WasmSound(t: Target, b: seq<byte>, off: nat, addr: seq<byte>, named: Named, p: Payload)
    requires off <= |b| <= t.maxTx
    requires ContractAt(b, off, 0xd2) == Some(Found(WasmVm, addr))
    requires MethodAt(b, off, WasmVm) == Some(named)
    requires BodyAt(t, WasmVm, b, named.start, Call(addr, named.name)) == Body(p, |b|)
    ensures HoldsPayload(t, b, off, 0xd2, p)
  {
    hide Occurs, BodyAt, PrintBody, PrintName, PrintWasm, MethodAt, BodyOk;
    BodyParse(t, WasmVm, b, named.start, Call(addr, named.name), p, |b|);
    WasmNames(b, off);
    WasmNameParse(b, off, named.name);
    OccursCat(b, named.start, PrintBody(p), OPCODE_END);
    OccursByte(b, named.start + |PrintBody(p)|, 0);
    OccursIs(b, off, addr);
    WasmPartsOccur(b, off, addr, named.name, PrintBody(p));
  }

  lemma WasmContract(b: seq<byte>, off: nat, addr: seq<byte>)
    ensures |addr| == 20 && Occurs(b, off, addr) ==> ContractAt(b, off, 0xd2) == Some(Found(WasmVm, addr))
  {
  }

  lemma WasmComplete(t: Target, b: seq<byte>, off: nat, h: Header, s: Parsed<Sized>, p: Payload)
    requires |b| <= t.maxTx && p.WasmCall? && s.At? && s.end == off
    requires HoldsPayload(t, b, off, h.txType, p)
    ensures PayloadAt(t, b, h, s) == Accepted(Tx(h, s.value.form, p))
  {
    hide Occurs, BodyAt, PrintBody, PrintName, PrintWasm, MethodAt, BodyOk, ContractAt, Lookup;
    var call := p.call;
    BodyRegistered(t, p);
    WasmContract(b, off, call.addr);
    WasmPartsOccur(b, off, call.addr, call.name, PrintBody(p));
    NameLength(call.name);
    WasmNameParse(b, off, call.name);
    var start := off + 21 + |PrintName(call.name)|;
    OccursCat(b, start, PrintBody(p), OPCODE_END);
    OccursByte(b, start + |PrintBody(p)|, 0);
    BodyParse(t, WasmVm, b, start, call, p, |b|);
  }

  lemma NameLength(name: seq<byte>)
    ensures |PrintName(name)| == 1 + |name|
  {
  }

  /** The name found in a WebAssembly call starts where its text says. */
  lemma WasmNames(b: seq<byte>, off: nat)
    requires off + 20 <= |b|
    ensures var r := MethodAt(b, off, WasmVm); r.Some? ==> r.value.start == off + 21 + |PrintName(r.value.name)|
  {
  }

  /** The call recorded in an accepted payload is the one found by the contract and method stages. */
  lemma PayloadIsCall(t: Target, b: seq<byte>, h: Header, s: Parsed<Sized>)
    requires s.At?
    ensures var r := PayloadAt(t, b, h, s);
            r.Accepted? ==>
              && ContractAt(b, s.end, h.txType) == Some(Found(VmOf(r.tx.payload), r.tx.payload.call.addr))
              && r.tx.header == h && r.tx.form == s.value.form
  {
    hide BodyAt, ContractAt, MethodAt, Occurs;
    var c := ContractAt(b, s.end, h.txType);
    if c.Some? {
      var m := MethodAt(b, s.end, c.value.vm);
      if m.Some? {
        var r := BodyAt(t, c.value.vm, b, m.value.start, Call(c.value.addr, m.value.name));
        if r.Body? {
          BodyShape(t, c.value.vm, b, m.value.start, Call(c.value.addr, m.value.name));
        }
      }
    }
  }

  lemma BodyShape(t: Target, vm: Vm, b: seq<byte>, off: nat, call: Call)
    ensures var r := BodyAt(t, vm, b, off, call);
            r.Body? ==> VmOf(r.payload) == vm && r.payload.call == call
  {
    hide Occurs, ArgsAt, Lookup, CountAt, TransfersAt, IsToken, IsTransfer;
  }

  /** The stages behind the size test accept exactly the printed payloads. */
  lemma PayloadParse(t: Target, b: seq<byte>, h: Header, s: Parsed<Sized>, tx: Tx)
    requires s.At? && 0 < s.end <= |b| <= t.maxTx
    ensures PayloadAt(t, b, h, s) == Accepted(tx) <==>
            tx.header == h && tx.form == s.value.form && HoldsPayload(t, b, s.end, h.txType, tx.payload)
  {
    hide BodyAt, ContractAt, MethodAt, HoldsPayload;
    var off := s.end;
    if tx.header == h && tx.form == s.value.form && HoldsPayload(t, b, off, h.txType, tx.payload) {
      if tx.payload.WasmCall? {
        WasmComplete(t, b, off, h, s, tx.payload);
      } else {
        TrailedComplete(t, b, off, h, s, tx.payload);
      }
    }
    if PayloadAt(t, b, h, s) == Accepted(tx) {
      PayloadIsCall(t, b, h, s);
      PayloadSound(t, b, h, s, tx);
    }
  }

  lemma PayloadSound(t: Target, b: seq<byte>, h: Header, s: Parsed<Sized>, tx: Tx)
    requires s.At? && 0 < s.end <= |b| <= t.maxTx && PayloadAt(t, b, h, s) == Accepted(tx)
    ensures HoldsPayload(t, b, s.end, h.txType, tx.payload)
  {
    hide BodyAt, ContractAt, MethodAt, HoldsPayload;
    var off := s.end;
    var found := ContractAt(b, off, h.txType).value;
    TypeOfContract(b, off, h.txType);
    var named := MethodAt(b, off, found.vm).value;
    if found.vm == WasmVm {
      WasmSound(t, b, off, found.addr, named, tx.payload);
    } else {
      var e := BodyAt(t, found.vm, b, named.start, Call(found.addr, named.name)).end;
      TrailedSound(t, b, off, found.vm, found.addr, named, tx.payload, e);
    }
  }

  lemma TypeOfContract(b: seq<byte>, off: nat, txType: byte)
    ensures var r := ContractAt(b, off, txType);
            r.Some? ==> txType == (if r.value.vm == WasmVm then 0xd2 else 0xd1)
  {
  }

  // ----- the whole transaction

  lemma TxPartsOccur(t: Target, b: seq<byte>, tx: Tx)
    requires |tx.header.payer| == 20
    ensures var size := PrintSize(t, tx.form, |PrintPayload(tx.payload)|);
            var off := 42 + |size|;
            var e := off + |PrintPayload(tx.payload)|;
            b == PrintTx(t, tx) <==>
            && Occurs(b, 0, PrintHeader(tx.header)) && Occurs(b, 42, size)
            && Occurs(b, off, PrintPayload(tx.payload)) && e + 1 == |b| && b[e] == 0
  {
    hide Occurs, PrintHeader, PrintPayload, PrintSize;
    HeaderPartsOccur(b, tx.header);
    var size := PrintSize(t, tx.form, |PrintPayload(tx.payload)|);
    var off := 42 + |size|;
    OccursWhole(b, PrintTx(t, tx));
    OccursCat(b, 0, PrintHeader(tx.header), size + (PrintPayload(tx.payload) + OPCODE_END));
    OccursCat(b, 42, size, PrintPayload(tx.payload) + OPCODE_END);
    OccursCat(b, off, PrintPayload(tx.payload), OPCODE_END);
    OccursByte(b, off + |PrintPayload(tx.payload)|, 0);
  }

  /** A size prefix that matches is the true payload length, unless nothing follows it. */
  lemma SizeIsLength(t: Target, b: seq<byte>, s: Parsed<Sized>)
    requires s.At? && s.end < |b| <= t.maxTx && s.value.size < t.sizeMod
    ensures SizeMatches(t, b, s) <==> s.end + s.value.size + 1 == |b|
  {
  }

  /** The app accepts `b` as `tx` if and only if `tx` is well formed and `b` is its text. */
  lemma AcceptsExactlyThePrinted(t: Target, b: seq<byte>, tx: Tx)
    ensures Deserialize(t, b) == Accepted(tx) <==> TxOk(t, tx) && b == PrintTx(t, tx)
  {
    hide HeaderAt, SizeAt, SizeMatches, PayloadAt, HeaderOk, SizeOk, PayloadOk, PrintTx, PrintPayload, PrintHeader,
      PrintSize;
    var n := |PrintPayload(tx.payload)|;
    var off := 42 + |PrintSize(t, tx.form, n)|;
    if TxOk(t, tx) && b == PrintTx(t, tx) {
      HeaderHasPayer(tx.header);
      TxPartsOccur(t, b, tx);
      HeaderParse(b, tx.header);
      SizeParse(t, b, 42, tx.form, n, off);
      SizeIsLength(t, b, At(Sized(tx.form, n), off));
      PayloadParse(t, b, tx.header, At(Sized(tx.form, n), off), tx);
    }
    if Deserialize(t, b) == Accepted(tx) {
      var s := SizeAt(t, b, 42);
      PayloadParse(t, b, HeaderAt(b).value, s, tx);
      HeaderParse(b, tx.header);
      HeaderHasPayer(tx.header);
      SizeIsLength(t, b, s);
      SizeParse(t, b, 42, s.value.form, s.value.size, s.end);
      TxPartsOccur(t, b, tx);
    }
  }

  lemma HeaderHasPayer(h: Header)
    ensures HeaderOk(h) ==> |h.payer| == 20
  {
  }
}
