/**
 When blind signing is offered: exactly for well-framed calls of a contract and method that the
 tables do not know. An unknown call has a frame like any other, around a body nobody parses.
 */
module BlindSigning {
  import opened Options
  import opened Bytes
  import opened TxTypes
  import opened Contracts
  import opened Grammar
  import opened ParserSpec
  import opened Acceptance
  import opened ParserLaws

  /** A call whose body is kept as bytes. In an unknown WebAssembly call nobody looks at the byte
      behind the payload, which may even be the last one of the method name: there `body` is all
      that follows the name, and the remaining-length byte counts one less. */
  datatype Unknown = Unknown(header: Header, form: SizeForm, vm: Vm, call: Call, body: seq<byte>)

  /** The payload and the byte behind it. */
  function PrintRest(u: Unknown): (s: seq<byte>)
    ensures |s| > 0
  {
    if u.vm == WasmVm then
      u.call.addr + ([(|PrintName(u.call.name)| + |u.body| - 1) % 256] + (PrintName(u.call.name) + u.body))
    else u.body + (PrintName(u.call.name) + (PrintTrailer(u.vm, u.call.addr) + OPCODE_END))
  }

  function PrintUnknown(t: Target, u: Unknown): seq<byte> {
    PrintHeader(u.header) + (PrintSize(t, u.form, |PrintRest(u)| - 1) + PrintRest(u))
  }

  /** Where the payload of an unknown call starts. */
  function UnknownStart(t: Target, u: Unknown): nat {
    42 + |PrintSize(t, u.form, |PrintRest(u)| - 1)|
  }

  /** In `b`, with the payload at `off`, the frame of `u` is right: the scan finds the end of the
      body, and a native body opens a parameter list. */
  predicate FrameOk(b: seq<byte>, off: nat, u: Unknown) {
    && u.header.txType == (if u.vm == WasmVm then 0xd2 else 0xd1)
    && |u.call.addr| == 20 && 1 <= |u.call.name| < 256
    && (u.vm == NativeVm ==> OPCODE_ST_BEGIN <= u.body)
    && (if u.vm == WasmVm then |PrintName(u.call.name)| + |u.body| <= 256
        else off + |u.body| < |b| && LastTerminator(b, u.vm == NativeVm, off, Behind(b, u.vm), off + |u.body|))
  }

  function Behind(b: seq<byte>, vm: Vm): nat {
    if TrailerLength(vm) <= |b| then |b| - TrailerLength(vm) else 0
  }

  predicate UnknownOk(t: Target, u: Unknown) {
    && HeaderOk(u.header)
    && SizeOk(t, u.form, |PrintRest(u)| - 1)
    && |PrintUnknown(t, u)| <= t.maxTx
    && Lookup(u.call.addr, u.call.name) == None
    && FrameOk(PrintUnknown(t, u), UnknownStart(t, u), u)
  }

  /** `b` ends, from `off` on, with the payload of `u` and the byte behind it. */
  predicate HoldsUnknown(b: seq<byte>, off: nat, u: Unknown) {
    Occurs(b, off, PrintRest(u)) && off + |PrintRest(u)| == |b|
  }

  lemma UnknownPartsOccur(t: Target, b: seq<byte>, u: Unknown)
    requires |u.header.payer| == 20
    ensures var size := PrintSize(t, u.form, |PrintRest(u)| - 1);
            b == PrintUnknown(t, u) <==>
            Occurs(b, 0, PrintHeader(u.header)) && Occurs(b, 42, size) && HoldsUnknown(b, 42 + |size|, u)
  {
    hide Occurs, PrintHeader, PrintRest, PrintSize;
    HeaderPartsOccur(b, u.header);
    var size := PrintSize(t, u.form, |PrintRest(u)| - 1);
    OccursWhole(b, PrintUnknown(t, u));
    OccursCat(b, 0, PrintHeader(u.header), size + PrintRest(u));
    OccursCat(b, 42, size, PrintRest(u));
  }

  lemma TrailedUnknown(b: seq<byte>, off: nat, u: Unknown)
    requires u.vm != WasmVm
    ensures Occurs(b, off, PrintRest(u)) <==>
            var c := off + |u.body|;
            var e := c + |PrintName(u.call.name)|;
            && Occurs(b, off, u.body) && Occurs(b, c, PrintName(u.call.name))
            && Occurs(b, e, PrintTrailer(u.vm, u.call.addr))
            && Occurs(b, e + |PrintTrailer(u.vm, u.call.addr)|, OPCODE_END)
    ensures |PrintRest(u)| == |u.body| + |PrintName(u.call.name)| + |PrintTrailer(u.vm, u.call.addr)| + 1
  {
    hide Occurs, PrintName, PrintTrailer;
    var c := off + |u.body|;
    var tail := PrintTrailer(u.vm, u.call.addr) + OPCODE_END;
    OccursCat(b, off, u.body, PrintName(u.call.name) + tail);
    OccursCat(b, c, PrintName(u.call.name), tail);
    OccursCat(b, c + |PrintName(u.call.name)|, PrintTrailer(u.vm, u.call.addr), OPCODE_END);
  }

  lemma WasmUnknown(b: seq<byte>, off: nat, u: Unknown)
    requires u.vm == WasmVm && |u.call.addr| == 20
    ensures Occurs(b, off, PrintRest(u)) <==>
            && Occurs(b, off, u.call.addr) && off + 20 < |b|
            && b[off + 20] == (|PrintName(u.call.name)| + |u.body| - 1) % 256
            && Occurs(b, off + 21, PrintName(u.call.name)) && Occurs(b, off + 21 + |PrintName(u.call.name)|, u.body)
    ensures |PrintRest(u)| == 21 + |PrintName(u.call.name)| + |u.body|
  {
    hide Occurs, PrintName;
    var rem: byte := (|PrintName(u.call.name)| + |u.body| - 1) % 256;
    OccursCat(b, off, u.call.addr, [rem] + (PrintName(u.call.name) + u.body));
    OccursCat(b, off + 20, [rem], PrintName(u.call.name) + u.body);
    OccursByte(b, off + 20, rem);
    OccursCat(b, off + 21, PrintName(u.call.name), u.body);
  }

  /** The parameters stage answers "undefined" exactly for unregistered calls, behind the opening of
      a native parameter list. */
  lemma UndefinedBodyMeans(t: Target, vm: Vm, b: seq<byte>, off: nat, call: Call)
    ensures BodyAt(t, vm, b, off, call).UndefinedBody? <==>
            Lookup(call.addr, call.name) == None && (vm == NativeVm ==> Occurs(b, off, OPCODE_ST_BEGIN))
  {
    hide Occurs, ArgsAt, CountAt, TransfersAt, Lookup, IsToken, IsTransfer;
    if IsToken(call.addr) && IsTransfer(call.name) {
      TransfersRegistered(call.addr, call.name);
    }
  }

  /** A scan result is the last terminator, and the last terminator is the scan result. */
  lemma ScanIsLast(b: seq<byte>, native: bool, sBegin: nat, sEnd: nat, cur: nat)
    requires 0 < sBegin <= sEnd + 1
    ensures LastTerminator(b, native, sBegin, sEnd, cur) <==> Scan(b, native, sBegin, sEnd, sEnd + 1) == cur && cur > 0
  {
    hide TerminatorAt;
    ScanMeaning(b, native, sBegin, sEnd, sEnd + 1);
    if LastTerminator(b, native, sBegin, sEnd, cur) {
      var i :| sBegin <= i <= sEnd + 1 && TerminatorAt(b, native, sEnd, i) == Some(cur)
        && forall k :: i < k <= sEnd + 1 ==> TerminatorAt(b, native, sEnd, k) == None;
      ScanSkips(b, native, sBegin, sEnd, sEnd + 1, i);
      TerminatorBehind(b, native, sEnd, i);
    }
  }

  lemma PrefixOccurs(b: seq<byte>, off: nat, s: seq<byte>, w: seq<byte>)
    requires Occurs(b, off, w) && |s| <= |w|
    ensures Occurs(b, off, s) <==> s <= w
  {
    assert b[off..off + |s|] == b[off..off + |w|][..|s|];
  }

  lemma TrailedUnknownFound(b: seq<byte>, off: nat, u: Unknown)
    requires u.vm != WasmVm && 0 < off && FrameOk(b, off, u) && HoldsUnknown(b, off, u)
    ensures ContractAt(b, off, u.header.txType) == Some(Found(u.vm, u.call.addr))
    ensures off + TrailerLength(u.vm) <= |b| && MethodAt(b, off, u.vm) == Some(Named(u.call.name, off))
    ensures u.vm == NativeVm ==> Occurs(b, off, OPCODE_ST_BEGIN)
  {
    hide Occurs, ContractAt, PrintTrailer, Scan, PrintRest, NameFills, LastTerminator;
    TrailedUnknown(b, off, u);
    TrailerLengths(u.vm, u.call.addr);
    NameLength(u.call.name);
    OccursByte(b, |b| - 1, 0);
    ContractParse(b, off, u.vm, u.call.addr);
    var sEnd := |b| - TrailerLength(u.vm);
    ScanIsLast(b, u.vm == NativeVm, off, sEnd, off + |u.body|);
    NameParse(b, off + |u.body|, sEnd, u.call.name);
    if u.vm == NativeVm {
      PrefixOccurs(b, off, OPCODE_ST_BEGIN, u.body);
    }
  }

  lemma WasmUnknownFound(b: seq<byte>, off: nat, u: Unknown)
    requires u.vm == WasmVm && FrameOk(b, off, u) && HoldsUnknown(b, off, u)
    ensures ContractAt(b, off, u.header.txType) == Some(Found(u.vm, u.call.addr))
    ensures off + TrailerLength(u.vm) <= |b| && MethodAt(b, off, u.vm).Some?
    ensures MethodAt(b, off, u.vm).value.name == u.call.name
  {
    hide Occurs, ContractAt, PrintRest, MethodAt, PrintName;
    WasmUnknown(b, off, u);
    WasmContract(b, off, u.call.addr);
    WasmNameParse(b, off, u.call.name);
    NameLength(u.call.name);
  }

  /** Sufficient: a well-framed unknown call is offered for blind signing. */
  lemma UnknownIsUndefined(t: Target, u: Unknown)
    requires UnknownOk(t, u)
    ensures Deserialize(t, PrintUnknown(t, u)) == Undefined(u.header, Found(u.vm, u.call.addr), u.call.name)
  {
    hide HeaderAt, SizeAt, SizeMatches, ContractAt, MethodAt, BodyAt, PrintSize, PrintHeader, PrintRest, Lookup,
      HeaderOk, SizeOk, Occurs, FrameOk, PrintName;
    var b := PrintUnknown(t, u);
    var n := |PrintRest(u)| - 1;
    var off := UnknownStart(t, u);
    HeaderHasPayer(u.header);
    UnknownPartsOccur(t, b, u);
    HeaderParse(b, u.header);
    SizeParse(t, b, 42, u.form, n, off);
    SizeIsLength(t, b, At(Sized(u.form, n), off));
    if u.vm == WasmVm {
      WasmUnknownFound(b, off, u);
    } else {
      TrailedUnknownFound(b, off, u);
    }
    UndefinedBodyMeans(t, u.vm, b, MethodAt(b, off, u.vm).value.start, u.call);
  }

  lemma TrailedUnknownSeen(b: seq<byte>, off: nat, h: Header, form: SizeForm, vm: Vm, addr: seq<byte>, name: seq<byte>)
    returns (u: Unknown)
    requires vm != WasmVm && 0 < off && h.txType == 0xd1
    requires ContractAt(b, off, 0xd1) == Some(Found(vm, addr))
    requires off + TrailerLength(vm) <= |b| && MethodAt(b, off, vm) == Some(Named(name, off))
    requires vm == NativeVm ==> Occurs(b, off, OPCODE_ST_BEGIN)
    ensures u.header == h && u.form == form && u.vm == vm && u.call == Call(addr, name)
    ensures FrameOk(b, off, u) && HoldsUnknown(b, off, u)
  {
    hide Occurs, ContractAt, PrintTrailer, Scan, PrintRest, LastTerminator, TerminatorAt;
    var sEnd := |b| - TrailerLength(vm);
    var cur := Scan(b, vm == NativeVm, off, sEnd, sEnd + 1);
    ScanRange(b, vm, off, sEnd);
    u := Unknown(h, form, vm, Call(addr, name), b[off..cur]);
    ContractParse(b, off, vm, addr);
    NameParse(b, cur, sEnd, name);
    OccursIs(b, off, u.body);
    TrailedUnknown(b, off, u);
    TrailerLengths(vm, addr);
    NameLength(name);
    OccursByte(b, |b| - 1, 0);
    ScanIsLast(b, vm == NativeVm, off, sEnd, cur);
    if vm == NativeVm {
      BodyLongEnough(b, off, sEnd, cur);
      PrefixOccurs(b, off, OPCODE_ST_BEGIN, u.body);
    }
  }

  lemma ScanRange(b: seq<byte>, vm: Vm, off: nat, sEnd: nat)
    ensures var cur := Scan(b, vm == NativeVm, off, sEnd, sEnd + 1); cur > 0 ==> off < cur
  {
  }

  /** Behind the three bytes that open a parameter list there is no terminator before offset 3. */
  lemma BodyLongEnough(b: seq<byte>, off: nat, sEnd: nat, cur: nat)
    requires 0 < off && Occurs(b, off, OPCODE_ST_BEGIN)
    requires cur > 0 && off <= sEnd + 1 && cur == Scan(b, true, off, sEnd, sEnd + 1)
    ensures cur >= off + 3
  {
    ScanMeaning(b, true, off, sEnd, sEnd + 1);
    var w := b[off..off + 3];
    assert b[off] == w[0] && b[off + 1] == w[1] && b[off + 2] == w[2];
    TerminatorBytes(b, off);
    TerminatorBytes(b, off + 1);
    TerminatorBytes(b, off + 2);
  }

  lemma WasmUnknownSeen(b: seq<byte>, off: nat, h: Header, form: SizeForm, addr: seq<byte>, name: seq<byte>, start: nat)
    returns (u: Unknown)
    requires h.txType == 0xd2
    requires ContractAt(b, off, 0xd2) == Some(Found(WasmVm, addr))
    requires off + 20 <= |b| && MethodAt(b, off, WasmVm) == Some(Named(name, start))
    ensures u.header == h && u.form == form && u.vm == WasmVm && u.call == Call(addr, name)
    ensures FrameOk(b, off, u) && HoldsUnknown(b, off, u)
  {
    hide Occurs, MethodAt, PrintRest, PrintName;
    WasmNames(b, off);
    WasmNameParse(b, off, name);
    NameLength(name);
    u := Unknown(h, form, WasmVm, Call(addr, name), b[start..]);
    OccursIs(b, off, addr);
    OccursIs(b, start, u.body);
    WasmUnknown(b, off, u);
  }

  /** Necessary: what is offered for blind signing is a well-framed unknown call. */
  lemma UndefinedIsUnknown(t: Target, b: seq<byte>) returns (u: Unknown)
    requires Deserialize(t, b).Undefined?
    ensures UnknownOk(t, u) && b == PrintUnknown(t, u)
  {
    hide HeaderAt, SizeAt, SizeMatches, ContractAt, MethodAt, BodyAt, PrintSize, PrintHeader, PrintRest, Lookup,
      HeaderOk, SizeOk, Occurs, FrameOk, PrintName;
    var h, s := HeaderAt(b).value, SizeAt(t, b, 42);
    var found := ContractAt(b, s.end, h.txType).value;
    var named := MethodAt(b, s.end, found.vm).value;
    TypeOfContract(b, s.end, h.txType);
    UndefinedBodyMeans(t, found.vm, b, named.start, Call(found.addr, named.name));
    if found.vm == WasmVm {
      u := WasmUnknownSeen(b, s.end, h, s.value.form, found.addr, named.name, named.start);
    } else {
      StartOf(b, s.end, found.vm);
      u := TrailedUnknownSeen(b, s.end, h, s.value.form, found.vm, found.addr, named.name);
    }
    HeaderParse(b, h);
    HeaderHasPayer(h);
    SizeIsLength(t, b, s);
    SizeParse(t, b, 42, s.value.form, s.value.size, s.end);
    UnknownPartsOccur(t, b, u);
  }

  lemma StartOf(b: seq<byte>, off: nat, vm: Vm)
    requires off + TrailerLength(vm) <= |b|
    ensures var m := MethodAt(b, off, vm); m.Some? && vm != WasmVm ==> m.value.start == off
  {
    hide Scan;
  }

  /** Blind signing is offered for exactly the well-framed calls that are not registered. */
  lemma BlindExactlyUnknown(t: Target, b: seq<byte>)
    ensures Deserialize(t, b).Undefined? <==> exists u :: UnknownOk(t, u) && b == PrintUnknown(t, u)
  {
    hide Deserialize, UnknownOk, PrintUnknown;
    if Deserialize(t, b).Undefined? {
      var u := UndefinedIsUnknown(t, b);
    }
    if u :| UnknownOk(t, u) && b == PrintUnknown(t, u) {
      UnknownIsUndefined(t, u);
    }
  }

  /** In particular a registered method is never blind-signable, however malformed its parameters. */
  lemma RegisteredNeverBlind(t: Target, b: seq<byte>)
    requires Deserialize(t, b).Undefined?
    ensures var o := Deserialize(t, b); Lookup(o.found.addr, o.name) == None
  {
    hide HeaderAt, SizeAt, ContractAt, MethodAt, ArgsAt, TransfersAt, Lookup;
  }
}
