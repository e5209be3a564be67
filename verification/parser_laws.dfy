/**
 What the acceptance law gives: round trip, exact cover, injectivity, a prefix-free language, the
 meeting of the two ends of the parse, what blind signing is offered for, and the stored fields.
 */
module ParserLaws {
  import opened Options
  import opened Bytes
  import opened TxTypes
  import opened Contracts
  import opened Grammar
  import opened ParserSpec
  import opened Acceptance

  // ----- printing and parsing are inverse

  /** Every well-formed transaction is accepted, and parsed back to itself. */
  lemma PrintThenParse(t: Target, tx: Tx)
    requires TxOk(t, tx)
    ensures Deserialize(t, PrintTx(t, tx)) == Accepted(tx)
  {
    AcceptsExactlyThePrinted(t, PrintTx(t, tx), tx);
  }

  /** Every byte of an accepted transaction belongs to one printed piece. */
  lemma ExactCover(t: Target, b: seq<byte>)
    requires Deserialize(t, b).Accepted?
    ensures var tx := Deserialize(t, b).tx; TxOk(t, tx) && PrintTx(t, tx) == b
  {
    AcceptsExactlyThePrinted(t, b, Deserialize(t, b).tx);
  }

  lemma PrintInjective(t: Target, tx: Tx, tx': Tx)
    requires TxOk(t, tx) && TxOk(t, tx') && PrintTx(t, tx) == PrintTx(t, tx')
    ensures tx == tx'
  {
    hide Deserialize, TxOk, PrintTx;
    PrintThenParse(t, tx);
    PrintThenParse(t, tx');
  }

  /** The fee of an accepted header is at most the token supply, so its 64-bit product is exact. */
  lemma FeeFits(h: Header)
    requires HeaderOk(h)
    ensures h.gasPrice * h.gasLimit == Fee(h) <= TOKEN_AMOUNT
    ensures (h.gasPrice * h.gasLimit) % U64 == h.gasPrice * h.gasLimit
  {
    TimesIsProduct(h.gasPrice, h.gasLimit);
  }

  /** The headers that are accepted: both parts of the fee have a least value, and their product is at most
      the supply of ONG. */
  lemma HeaderLimits(h: Header)
    ensures HeaderOk(h) <==>
            && h.nonce < 0x1_0000_0000 && |h.payer| == 20
            && 2500 <= h.gasPrice < 0x1_0000_0000_0000_0000 && 20000 <= h.gasLimit
            && h.gasPrice * h.gasLimit <= 1_000_000_000_000_000_000
  {
    TimesIsProduct(h.gasPrice, h.gasLimit);
    hide Times;
  }

  // ----- prefix-freeness

  lemma HeaderStable(b: seq<byte>, c: seq<byte>)
    requires b <= c && HeaderAt(b).Some?
    ensures HeaderAt(c) == HeaderAt(b)
  {
    hide LeValue;
    assert forall i, j :: 0 <= i <= j <= |b| ==> c[i..j] == b[i..j];
  }

  lemma SizeStable(t: Target, b: seq<byte>, c: seq<byte>, off: nat)
    requires b <= c && SizeAt(t, b, off).At?
    ensures SizeAt(t, c, off) == SizeAt(t, b, off)
  {
    hide LeValue;
    assert forall i, j :: 0 <= i <= j <= |b| ==> c[i..j] == b[i..j];
  }

  /** Of all extensions of a text that passes the size test, only the text itself passes it. */
  lemma GateIsPrefixFree(t: Target, b: seq<byte>, c: seq<byte>)
    requires b <= c && PassesGate(t, b)
    ensures PassesGate(t, c) <==> b == c
    ensures b != c ==> Deserialize(t, c) == WrongLength
  {
    hide HeaderAt, SizeAt;
    HeaderStable(b, c);
    SizeStable(t, b, c, 42);
  }

  /** Recognised: accepted, or offered for blind signing. */
  predicate Recognised(t: Target, b: seq<byte>) {
    Deserialize(t, b).Accepted? || Deserialize(t, b).Undefined?
  }

  lemma RecognisedPasses(t: Target, b: seq<byte>)
    requires Recognised(t, b)
    ensures PassesGate(t, b)
  {
    hide HeaderAt, SizeAt, SizeMatches, PayloadAt;
  }

  /** The recognised language is prefix-free. */
  lemma RecognisedIsPrefixFree(t: Target, b: seq<byte>, c: seq<byte>)
    requires Recognised(t, b) && Recognised(t, c) && b <= c
    ensures b == c
  {
    hide Recognised, PassesGate;
    RecognisedPasses(t, b);
    RecognisedPasses(t, c);
    GateIsPrefixFree(t, b, c);
  }

  // ----- the two ends meet

  /** `cur` lies behind the last terminator in the scanned range. */
  predicate LastTerminator(b: seq<byte>, native: bool, sBegin: nat, sEnd: nat, cur: nat) {
    exists i ::
      && sBegin <= i <= sEnd + 1 && TerminatorAt(b, native, sEnd, i) == Some(cur)
      && forall k :: i < k <= sEnd + 1 ==> TerminatorAt(b, native, sEnd, k) == None
  }

  /** The scan from `i` returns the last terminator at or below `i`, and 0 only if there is none. */
  lemma {:induction false} ScanMeaning(b: seq<byte>, native: bool, sBegin: nat, sEnd: nat, i: nat)
    requires sBegin > 0
    ensures var cur := Scan(b, native, sBegin, sEnd, i);
            if cur == 0 then forall k :: sBegin <= k <= i ==> TerminatorAt(b, native, sEnd, k) == None
            else exists j ::
              && sBegin <= j <= i && TerminatorAt(b, native, sEnd, j) == Some(cur)
              && forall k :: j < k <= i ==> TerminatorAt(b, native, sEnd, k) == None
    decreases i
  {
    hide TerminatorAt;
    if i >= sBegin {
      var r := TerminatorAt(b, native, sEnd, i);
      if r.Some? {
        TerminatorBehind(b, native, sEnd, i);
      } else {
        ScanMeaning(b, native, sBegin, sEnd, i - 1);
        if Scan(b, native, sBegin, sEnd, i) == 0 {
          forall k | sBegin <= k <= i
            ensures TerminatorAt(b, native, sEnd, k) == None
          {
            assert k == i || k <= i - 1;
          }
        } else {
          var cur := Scan(b, native, sBegin, sEnd, i - 1);
          var j :| sBegin <= j <= i - 1 && TerminatorAt(b, native, sEnd, j) == Some(cur)
            && forall k :: j < k <= i - 1 ==> TerminatorAt(b, native, sEnd, k) == None;
          forall k | j < k <= i
            ensures TerminatorAt(b, native, sEnd, k) == None
          {
            assert k == i || k <= i - 1;
          }
        }
      }
    }
  }

  lemma TerminatorBehind(b: seq<byte>, native: bool, sEnd: nat, i: nat)
    ensures var r := TerminatorAt(b, native, sEnd, i); r.Some? ==> i < r.value
  {
  }

  /** In an accepted native or NeoVM transaction the parameters end exactly behind the last
      terminator in scan range, and the method name fills the rest up to the trailer. */
  lemma TwoEndsMeet(t: Target, b: seq<byte>)
    requires Deserialize(t, b).Accepted? && !Deserialize(t, b).tx.payload.WasmCall?
    ensures var tx := Deserialize(t, b).tx;
            var vm := VmOf(tx.payload);
            var start := SizeAt(t, b, 42).end;
            var sEnd := |b| - TrailerLength(vm);
            var meet := start + |PrintBody(tx.payload)|;
            && LastTerminator(b, vm == NativeVm, start, sEnd, meet)
            && meet + 1 + |tx.payload.call.name| == sEnd && Occurs(b, meet, PrintName(tx.payload.call.name))
  {
    hide HeaderAt, SizeAt, SizeMatches, PayloadAt, PrintBody, Occurs, HoldsPayload, LastTerminator;
    var tx := Deserialize(t, b).tx;
    var s := SizeAt(t, b, 42);
    var h := HeaderAt(b).value;
    PayloadParse(t, b, h, s, tx);
    TrailerFits(t, b, s.end, h.txType, tx.payload);
    ScanMeets(t, b, s.end, h.txType, tx.payload, |b| - TrailerLength(VmOf(tx.payload)));
  }

  lemma TrailerFits(t: Target, b: seq<byte>, off: nat, txType: byte, p: Payload)
    requires !p.WasmCall? && HoldsPayload(t, b, off, txType, p)
    ensures TrailerLength(VmOf(p)) <= |b|
  {
    hide PrintBody, PrintTrailer, PrintPayload, Occurs, BodyOk, PrintName;
    TrailedPartsOccur(b, off, p);
    BodyRegistered(t, p);
    TrailerLengths(VmOf(p), p.call.addr);
  }

  lemma ScanMeets(t: Target, b: seq<byte>, off: nat, txType: byte, p: Payload, sEnd: nat)
    requires 0 < off && !p.WasmCall? && HoldsPayload(t, b, off, txType, p) && sEnd + TrailerLength(VmOf(p)) == |b|
    ensures var meet := off + |PrintBody(p)|;
            && LastTerminator(b, VmOf(p) == NativeVm, off, sEnd, meet)
            && meet + 1 + |p.call.name| == sEnd && Occurs(b, meet, PrintName(p.call.name))
  {
    hide PrintBody, PrintTrailer, PrintPayload, Scan, TerminatorAt, Occurs, BodyOk, PrintName, LastTerminator, Lookup;
    var vm := VmOf(p);
    TrailedPartsOccur(b, off, p);
    BodyRegistered(t, p);
    TrailerLengths(vm, p.call.addr);
    NameLength(p.call.name);
    ScanFinds(t, b, off, p, sEnd);
    ScannedLast(b, vm == NativeVm, off, sEnd);
  }

  lemma ScannedLast(b: seq<byte>, native: bool, off: nat, sEnd: nat)
    requires 0 < off
    ensures var cur := Scan(b, native, off, sEnd, sEnd + 1); cur != 0 ==> LastTerminator(b, native, off, sEnd, cur)
  {
    hide Scan, TerminatorAt;
    ScanMeaning(b, native, off, sEnd, sEnd + 1);
  }

  /** Without a terminator in range nothing is recognised: the name is looked for at offset 0, where
      the version byte is 0. The same happens when the contract address starts with the PACK opcode. */
  lemma NoTerminatorNoMethod(b: seq<byte>, off: nat, vm: Vm)
    requires vm != WasmVm && 0 < off && off + TrailerLength(vm) <= |b|
    requires var sEnd, native := |b| - TrailerLength(vm), vm == NativeVm;
             || b[sEnd + 1] == OPCODE_PACK[0]
             || forall k :: off <= k <= sEnd + 1 ==> TerminatorAt(b, native, sEnd, k) == None
    ensures MethodAt(b, off, vm) == None
  {
    var sEnd, native := |b| - TrailerLength(vm), vm == NativeVm;
    if b[sEnd + 1] == OPCODE_PACK[0] {
      PackBehind(b, native, sEnd);
    } else {
      NothingFound(b, native, off, sEnd, sEnd + 1);
    }
  }

  lemma PackBehind(b: seq<byte>, native: bool, sEnd: nat)
    requires sEnd + 1 < |b| && b[sEnd + 1] == OPCODE_PACK[0]
    ensures TerminatorAt(b, native, sEnd, sEnd + 1) == Some(sEnd + 2)
  {
    OccursByte(b, sEnd + 1, OPCODE_PACK[0]);
  }

  lemma {:induction false} NothingFound(b: seq<byte>, native: bool, off: nat, sEnd: nat, i: nat)
    requires 0 < off && forall k :: off <= k <= i ==> TerminatorAt(b, native, sEnd, k) == None
    ensures Scan(b, native, off, sEnd, i) == 0
    decreases i
  {
    hide TerminatorAt;
    if i >= off {
      NothingFound(b, native, off, sEnd, i - 1);
    }
  }

  // ----- ordinary transfers

  /** One transfer of up to 16 ONT. */
  function OneTransfer(h: Header, from: seq<byte>, to: seq<byte>, n: PushNumber): Tx {
    Tx(h, OneByte, TransferList([Transfer(from, to, Push(n))], Push(1), Call(ONT_ADDR, TRANSFER)))
  }

  /** It is well-formed in every build, and so accepted, whatever the addresses and the fee. */
  lemma OneTransferAccepted(t: Target, h: Header, from: seq<byte>, to: seq<byte>, n: PushNumber)
    requires HeaderOk(h) && h.txType == 0xd1 && |from| == 20 && |to| == 20
    ensures var tx := OneTransfer(h, from, to, n);
            TxOk(t, tx) && Deserialize(t, PrintTx(t, tx)) == Accepted(tx)
  {
    hide HeaderOk, PrintPayload, Deserialize;
    var tx := OneTransfer(h, from, to, n);
    OneTransferSize(from, to, n);
    assert PayloadOk(t, tx.payload);
    SmallIsOk(t, tx);
    hide TxOk;
    PrintThenParse(t, tx);
  }

  /** A well-formed header and a payload of moderate size make a well-formed transaction. */
  lemma SmallIsOk(t: Target, tx: Tx)
    requires HeaderOk(tx.header) && tx.header.txType == (if tx.payload.WasmCall? then 0xd2 else 0xd1)
    requires PayloadOk(t, tx.payload) && SizeOk(t, tx.form, |PrintPayload(tx.payload)|) &&
             |PrintPayload(tx.payload)| <= 1000
    ensures TxOk(t, tx)
  {
    HeaderSize(tx.header);
    hide PrintPayload, PrintHeader, PayloadOk, LeBytes;
  }

  lemma OneTransferSize(from: seq<byte>, to: seq<byte>, n: PushNumber)
    requires |from| == 20 && |to| == 20
    ensures |PrintPayload(TransferList([Transfer(from, to, Push(n))], Push(1), Call(ONT_ADDR, TRANSFER)))| == 113
  {
    var s := Transfer(from, to, Push(n));
    assert PrintTransfers([s][1..]) == [];
    assert |PrintTransfer(s)| == 56;
    assert |PrintTrailer(NativeVm, ONT_ADDR)| == 46;
    assert |PrintName(TRANSFER)| == 9;
    hide PrintTransfer, PrintTrailer, PrintName;
  }

  lemma HeaderSize(h: Header)
    requires HeaderOk(h)
    ensures |PrintHeader(h)| == 42
  {
    HeaderPartsOccur([], h);
  }

  // ----- the empty list of transfers

  /** A list of no transfers is accepted exactly when its count of zero is written with a length
      byte: the single byte 0 would not stop the loop that looks for transfers. */
  lemma EmptyTransferList(t: Target, count: Amount, call: Call)
    requires IsToken(call.addr) && IsTransfer(call.name)
    ensures PayloadOk(t, TransferList([], count, call)) <==>
            count.Prefixed? && 1 <= |count.raw| <= 8 && LeValue(count.raw) == 0
  {
  }
}
