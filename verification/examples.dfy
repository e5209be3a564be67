/**
 Transactions byte by byte, as a host sends them, and what is shown for them: one for each kind of
 contract. Addresses, keys and the first header fields are any; opcodes, names, amounts and contract
 addresses are written out.
 */
module Examples {
  import opened Options
  import opened Bytes
  import opened TxTypes
  import opened Contracts
  import G = Grammar
  import opened ParserSpec
  import opened ParserLaws
  import opened Decimal
  import opened DisplayPlan
  import opened DisplayLaws
  import opened StakingLaws
  import opened CaptionLaws
  import opened Review
  import R = MethodRows
  import C = Counterexamples

  // ----- the frame

  /** A transaction at a gas price of 2500 and a limit of 20000, around a payload of up to 252 bytes. */
  function Framed(kind: byte, nonce: seq<byte>, payer: seq<byte>, payload: seq<byte>): seq<byte>
    requires |payload| < 0xfd
  {
    [0x00, kind] + nonce + [0xc4, 0x09, 0, 0, 0, 0, 0, 0] + [0x20, 0x4e, 0, 0, 0, 0, 0, 0] + payer +
    [|payload|] + payload + [0x00]
  }

  function Head(kind: byte, nonce: seq<byte>, payer: seq<byte>): G.Header {
    G.Header(kind, LeValue(nonce), 2500, 20000, payer)
  }

  lemma HeadBytes(kind: byte, nonce: seq<byte>, payer: seq<byte>)
    requires |nonce| == 4 && |payer| == 20
    ensures G.HeaderOk(Head(kind, nonce, payer))
    ensures G.PrintHeader(Head(kind, nonce, payer)) ==
            [0x00, kind] + nonce + [0xc4, 0x09, 0, 0, 0, 0, 0, 0] + [0x20, 0x4e, 0, 0, 0, 0, 0, 0] + payer
  {
    hide LeValue, LeBytes, Times, Pow256;
    LeBytesOfValue(nonce);
    LeValueBound(nonce);
    Pow256Values();
    TimesIsProduct(2500, 20000);
    FeeBytes();
    Headed([0x00, kind], nonce, [0xc4, 0x09, 0, 0, 0, 0, 0, 0], [0x20, 0x4e, 0, 0, 0, 0, 0, 0], payer);
  }

  lemma FeeBytes()
    ensures LeBytes(2500, 8) == [0xc4, 0x09, 0, 0, 0, 0, 0, 0]
    ensures LeBytes(20000, 8) == [0x20, 0x4e, 0, 0, 0, 0, 0, 0]
  {
  }

  lemma Headed(a: seq<byte>, b: seq<byte>, c: seq<byte>, d: seq<byte>, e: seq<byte>)
    ensures a + (b + (c + (d + e))) == a + b + c + d + e
  {
  }

  /** What is printed in the frame is accepted as what was printed, at a fee of at most 0.05 ONG. */
  lemma FramedAccepted(t: Target, kind: byte, nonce: seq<byte>, payer: seq<byte>, p: G.Payload)
    requires |nonce| == 4 && |payer| == 20 && kind == (if p.WasmCall? then 0xd2 else 0xd1)
    requires G.PayloadOk(t, p) && 0 < |G.PrintPayload(p)| < 0xfd
    ensures var tx := G.Tx(Head(kind, nonce, payer), G.OneByte, p);
            && G.TxOk(t, tx) && Deserialize(t, Framed(kind, nonce, payer, G.PrintPayload(p))) == Accepted(tx)
            && FeeInOng(tx.header) == "0.05 ONG"
  {
    var tx, b := G.Tx(Head(kind, nonce, payer), G.OneByte, p), G.PrintPayload(p);
    hide G.PayloadOk, G.PrintPayload, G.PrintHeader, G.HeaderOk, Deserialize, AmountText, Framed, G.PrintTx, G.TxOk,
      LeValue;
    HeadBytes(kind, nonce, payer);
    FeeText();
    FrameBytes(t, tx, nonce);
    assert "0.05" + " ONG" == "0.05 ONG";
    SmallIsOk(t, tx);
    PrintThenParse(t, tx);
  }

  lemma FrameBytes(t: Target, tx: G.Tx, nonce: seq<byte>)
    requires |nonce| == 4 && |tx.header.payer| == 20 && tx.header == Head(tx.header.txType, nonce, tx.header.payer)
    requires tx.form == G.OneByte && |G.PrintPayload(tx.payload)| < 0xfd
    ensures G.PrintTx(t, tx) == Framed(tx.header.txType, nonce, tx.header.payer, G.PrintPayload(tx.payload))
  {
    hide G.PrintPayload, G.PrintHeader, Head;
    HeadBytes(tx.header.txType, nonce, tx.header.payer);
    var h, b := G.PrintHeader(tx.header), G.PrintPayload(tx.payload);
    assert G.PrintSize(t, G.OneByte, |b|) == [|b|];
    hide G.PrintSize;
    Around(h, [|b|], b, [0x00]);
  }

  lemma Around(a: seq<byte>, b: seq<byte>, c: seq<byte>, d: seq<byte>)
    ensures a + (b + (c + d)) == a + b + c + d
  {
  }

  lemma FeeText()
    ensures AmountText(2500 * 20000, 9) == "0.05"
  {
    assert Pow10(9) == 1_000_000_000;
    hide Pow10;
    assert Quotient(50_000_000, 9) == 0 && Remainder(50_000_000, 9) == 50_000_000;
    assert Digits(0) == "0";
    hide Fixed, Digits, Quotient, Remainder, TrimZeros;
    FeeDigits();
    Trimmed("05", 7);
    assert "05" + seq(7, _ => '0') == "050000000";
    assert "0" + ['.'] + "05" == "0.05";
  }

  lemma FeeDigits()
    ensures Fixed(50_000_000, 9) == "050000000"
  {
    NextDigit(5000000, 0);
    NextDigit(500000, 0);
    NextDigit(50000, 0);
    NextDigit(5000, 0);
    NextDigit(500, 0);
    NextDigit(50, 0);
    NextDigit(5, 0);
    NextDigit(0, 5);
    NextDigit(0, 0);
    hide Fixed, Digits;
  }

  /** Zeros behind another digit are not shown. */
  lemma {:induction false} Trimmed(s: string, n: nat)
    requires s != [] && s[|s| - 1] != '0'
    ensures TrimZeros(s + seq(n, _ => '0')) == s
  {
    var w := s + seq(n, _ => '0');
    if n > 0 {
      assert w[..|w| - 1] == s + seq(n - 1, _ => '0');
      Trimmed(s, n - 1);
    } else {
      assert w == s;
    }
  }

  /** The bytes are accepted, and these rows are shown in front of a fee of 0.05 ONG and the signer. */
  predicate ReviewedAs(t: Target, base58: Base58, b: seq<byte>, rows: seq<Shown>) {
    Deserialize(t, b).Accepted?
    && var tx := Deserialize(t, b).tx;
       Reviewed(base58, tx) == Some(rows) && FeeInOng(tx.header) == "0.05 ONG"
  }

  /** A system call of the virtual machine, by the address's last byte. */
  function NativeEnd(last: byte): (s: seq<byte>)
    ensures |s| == 46
  {
    [0x14, 0, 0, 0, 0, 0, 0, 0, 0, 0, 0, 0, 0, 0, 0, 0, 0, 0, 0, 0, last] + [0x00, 0x68] +
    [0x16, 0x4f, 0x6e, 0x74, 0x6f, 0x6c, 0x6f, 0x67, 0x79, 0x2e, 0x4e, 0x61, 0x74, 0x69, 0x76, 0x65,
     0x2e, 0x49, 0x6e, 0x76, 0x6f, 0x6b, 0x65]
  }

  lemma NativeEnds()
    ensures G.PrintTrailer(NativeVm, ONT_ADDR) == NativeEnd(1)
    ensures G.PrintTrailer(NativeVm, ONG_ADDR) == NativeEnd(2)
    ensures G.PrintTrailer(NativeVm, GOV_ADDR) == NativeEnd(7)
  {
    assert G.PrintLenAddr(ONT_ADDR) == [0x14, 0, 0, 0, 0, 0, 0, 0, 0, 0, 0, 0, 0, 0, 0, 0, 0, 0, 0, 0, 1];
    assert G.PrintLenAddr(ONG_ADDR) == [0x14, 0, 0, 0, 0, 0, 0, 0, 0, 0, 0, 0, 0, 0, 0, 0, 0, 0, 0, 0, 2];
    assert G.PrintLenAddr(GOV_ADDR) == [0x14, 0, 0, 0, 0, 0, 0, 0, 0, 0, 0, 0, 0, 0, 0, 0, 0, 0, 0, 0, 7];
  }

  lemma Names()
    ensures G.PrintName(TRANSFER) == [0x08, 0x74, 0x72, 0x61, 0x6e, 0x73, 0x66, 0x65, 0x72]
    ensures G.PrintName(TRANSFER_V2) == [0x0a, 0x74, 0x72, 0x61, 0x6e, 0x73, 0x66, 0x65, 0x72, 0x56, 0x32]
    ensures G.PrintName(APPROVE) == [0x07, 0x61, 0x70, 0x70, 0x72, 0x6f, 0x76, 0x65]
    ensures G.PrintName(SET_FEE_PERCENTAGE) ==
            [0x10, 0x73, 0x65, 0x74, 0x46, 0x65, 0x65, 0x50, 0x65, 0x72, 0x63, 0x65, 0x6e, 0x74, 0x61, 0x67,
             0x65]
    ensures G.PrintName(AUTHORIZE_FOR_PEER) ==
            [0x10, 0x61, 0x75, 0x74, 0x68, 0x6f, 0x72, 0x69, 0x7a, 0x65, 0x46, 0x6f, 0x72, 0x50, 0x65, 0x65,
             0x72]
  {
  }

  // ----- one ONT

  /** tests/test_sign_cmd.py:42 */
  function OntTransfer(from: seq<byte>, to: seq<byte>): (s: seq<byte>)
    ensures |s| == |from| + |to| + 73
  {
    [0x00, 0xc6, 0x6b] + [0x14] + from + [0x6a, 0x7c, 0xc8] + [0x14] + to + [0x6a, 0x7c, 0xc8] +
    [0x51] + [0x6a, 0x7c, 0xc8, 0x6c] +
    [0x51, 0xc1] + [0x08, 0x74, 0x72, 0x61, 0x6e, 0x73, 0x66, 0x65, 0x72] + NativeEnd(1)
  }

  lemma OntTransferBytes(from: seq<byte>, to: seq<byte>)
    ensures G.PrintPayload(G.TransferList([G.Transfer(from, to, G.Push(1))], G.Push(1), G.Call(ONT_ADDR, TRANSFER))) ==
            OntTransfer(from, to)
  {
    hide NativeEnd, G.PrintTrailer, G.PrintName, G.PrintPayload, Ascii;
    NativeEnds();
    Names();
    ListBytes(from, to, G.Push(1), G.Call(ONT_ADDR, TRANSFER));
  }

  lemma ListBytes(from: seq<byte>, to: seq<byte>, a: G.Amount, call: G.Call)
    ensures G.PrintPayload(G.TransferList([G.Transfer(from, to, a)], G.Push(1), call)) ==
            [0x00, 0xc6, 0x6b] + [0x14] + from + [0x6a, 0x7c, 0xc8] + [0x14] + to + [0x6a, 0x7c, 0xc8] +
            G.PrintAmount(a) + [0x6a, 0x7c, 0xc8, 0x6c] +
            [0x51, 0xc1] + G.PrintName(call.name) + G.PrintTrailer(NativeVm, call.addr)
  {
    assert G.PrintAmount(G.Push(1)) + OPCODE_PACK == [0x51, 0xc1];
    hide G.PrintAmount, G.PrintTrailer, G.PrintName;
    var s := G.Transfer(from, to, a);
    TransferBytes(from, to, a);
    hide G.PrintTransfer;
    assert [s][1..] == [] && G.PrintTransfers([s]) == G.PrintTransfer(s);
    Joined(G.PrintTransfer(s), [0x51, 0xc1], G.PrintName(call.name), G.PrintTrailer(NativeVm, call.addr));
  }

  lemma Joined(a: seq<byte>, b: seq<byte>, c: seq<byte>, d: seq<byte>)
    ensures a + b + (c + d) == a + b + c + d
  {
  }

  lemma TransferBytes(from: seq<byte>, to: seq<byte>, a: G.Amount)
    ensures G.PrintTransfer(G.Transfer(from, to, a)) ==
            [0x00, 0xc6, 0x6b] + [0x14] + from + [0x6a, 0x7c, 0xc8] + [0x14] + to + [0x6a, 0x7c, 0xc8] +
            G.PrintAmount(a) + [0x6a, 0x7c, 0xc8, 0x6c]
  {
    hide G.PrintAmount;
  }

  lemma OntTransferReviewed(t: Target, base58: Base58, nonce: seq<byte>, payer: seq<byte>, from: seq<byte>,
                            to: seq<byte>)
    requires |nonce| == 4 && |payer| == |from| == |to| == 20 && base58(from).Some? && base58(to).Some?
    ensures ReviewedAs(t, base58, Framed(0xd1, nonce, payer, OntTransfer(from, to)),
                       [Shown(From, base58(from).value), Shown(Amount, "1 ONT"), Shown(To, base58(to).value)])
  {
    var tx := OneTransfer(Head(0xd1, nonce, payer), from, to, 1);
    OntTransferBytes(from, to);
    HeadBytes(0xd1, nonce, payer);
    OneTransferAccepted(t, tx.header, from, to, 1);
    OntPayload(t, tx);
    hide OntTransfer, G.PrintPayload, Framed, G.TxOk, Deserialize, G.PayloadOk, Reviewed, AmountText, NativeEnd,
      R.ListRows,
      G.HeaderOk, Ascii;
    FramedAccepted(t, 0xd1, nonce, payer, tx.payload);
    R.ListReview(t, base58, tx);
    OntRows(base58, from, to);
  }

  lemma OntPayload(t: Target, tx: G.Tx)
    requires G.TxOk(t, tx)
    ensures G.PayloadOk(t, tx.payload)
  {
  }

  lemma OntRows(base58: Base58, from: seq<byte>, to: seq<byte>)
    requires base58(from).Some? && base58(to).Some?
    ensures !(TRANSFER == Ascii("transferV2"))
    ensures R.ListRows(base58, [G.Transfer(from, to, G.Push(1))], 0, " ONT") ==
            Some([Shown(From, base58(from).value), Shown(Amount, "1 ONT"), Shown(To, base58(to).value)])
  {
    NamesDiffer();
    QuotientByOne(1);
    assert Digits(1) == "1" && AmountText(1, 0) == "1" && "1" + " ONT" == "1 ONT";
    hide AmountText, Ascii;
    var ts := [G.Transfer(from, to, G.Push(1))];
    assert ts[1..] == [] && R.ListRows(base58, ts[1..], 0, " ONT") == Some([]);
    var shown := [Shown(From, base58(from).value), Shown(Amount, "1 ONT"), Shown(To, base58(to).value)];
    AllWritten([R.Row(From, base58(from)), R.Row(Amount, R.NumberOf(G.Amt(G.Push(1)), 0, " ONT")),
                R.Row(To, base58(to))],
      shown);
    assert shown + [] == shown;
  }

  lemma AllWritten(rows: seq<R.Row>, shown: seq<Shown>)
    requires |rows| == |shown|
    requires forall i :: 0 <= i < |rows| ==> rows[i] == R.Row(shown[i].caption, Some(shown[i].text))
    ensures R.Written(rows) == Some(shown)
  {
    assert R.Written(rows).value == shown;
  }

  // ----- one ONG with eighteen decimals

  /** tests/test_sign_cmd.py:74 */
  function OngTransfer(from: seq<byte>, to: seq<byte>): (s: seq<byte>)
    ensures |s| == |from| + |to| + 83
  {
    [0x00, 0xc6, 0x6b] + [0x14] + from + [0x6a, 0x7c, 0xc8] + [0x14] + to + [0x6a, 0x7c, 0xc8] +
    [0x08, 0x00, 0x00, 0x64, 0xa7, 0xb3, 0xb6, 0xe0, 0x0d] + [0x6a, 0x7c, 0xc8, 0x6c] +
    [0x51, 0xc1] + [0x0a, 0x74, 0x72, 0x61, 0x6e, 0x73, 0x66, 0x65, 0x72, 0x56, 0x32] + NativeEnd(2)
  }

  const ONE_ONG := G.Prefixed([0x00, 0x00, 0x64, 0xa7, 0xb3, 0xb6, 0xe0, 0x0d])

  function OngPayload(from: seq<byte>, to: seq<byte>): G.Payload {
    G.TransferList([G.Transfer(from, to, ONE_ONG)], G.Push(1), G.Call(ONG_ADDR, TRANSFER_V2))
  }

  lemma OngTransferBytes(from: seq<byte>, to: seq<byte>)
    ensures G.PrintPayload(OngPayload(from, to)) == OngTransfer(from, to)
  {
    assert G.PrintAmount(ONE_ONG) == [0x08, 0x00, 0x00, 0x64, 0xa7, 0xb3, 0xb6, 0xe0, 0x0d];
    hide NativeEnd, G.PrintTrailer, G.PrintName, G.PrintPayload, G.PrintAmount, Ascii;
    NativeEnds();
    Names();
    ListBytes(from, to, ONE_ONG, G.Call(ONG_ADDR, TRANSFER_V2));
  }

  lemma OngTransferReviewed(t: Target, base58: Base58, nonce: seq<byte>, payer: seq<byte>, from: seq<byte>,
                            to: seq<byte>)
    requires |nonce| == 4 && |payer| == |from| == |to| == 20 && base58(from).Some? && base58(to).Some?
    ensures ReviewedAs(t, base58, Framed(0xd1, nonce, payer, OngTransfer(from, to)),
                       [Shown(From, base58(from).value), Shown(Amount, "1 ONG"), Shown(To, base58(to).value)])
  {
    var tx := G.Tx(Head(0xd1, nonce, payer), G.OneByte, OngPayload(from, to));
    OngTransferBytes(from, to);
    OngPayloadOk(t, from, to);
    OngRows(base58, from, to);
    ListPayload(from, to);
    hide OngTransfer, G.PrintPayload, Framed, G.TxOk, Deserialize, G.PayloadOk, Reviewed, AmountText, NativeEnd,
      R.ListRows,
      G.HeaderOk, Ascii, OngPayload;
    FramedAccepted(t, 0xd1, nonce, payer, tx.payload);
    R.ListReview(t, base58, tx);
  }

  lemma ListPayload(from: seq<byte>, to: seq<byte>)
    ensures var p := OngPayload(from, to);
            && p.TransferList? && p.call == G.Call(ONG_ADDR, Ascii("transferV2")) && ONG_ADDR != ONT_ADDR
            && p.states == [G.Transfer(from, to, ONE_ONG)]
  {
    assert ONT_ADDR[19] == 1 && ONG_ADDR[19] == 2;
  }

  lemma OngPayloadOk(t: Target, from: seq<byte>, to: seq<byte>)
    requires |from| == |to| == 20
    ensures G.PayloadOk(t, OngPayload(from, to))
  {
  }

  lemma OngRows(base58: Base58, from: seq<byte>, to: seq<byte>)
    requires base58(from).Some? && base58(to).Some?
    ensures R.ListRows(base58, [G.Transfer(from, to, ONE_ONG)], 18, " ONG") ==
            Some([Shown(From, base58(from).value), Shown(Amount, "1 ONG"), Shown(To, base58(to).value)])
  {
    OngText();
    hide AmountText, LeValue;
    assert "1" + " ONG" == "1 ONG";
    var ts := [G.Transfer(from, to, ONE_ONG)];
    assert ts[1..] == [] && R.ListRows(base58, ts[1..], 18, " ONG") == Some([]);
    var shown := [Shown(From, base58(from).value), Shown(Amount, "1 ONG"), Shown(To, base58(to).value)];
    AllWritten([R.Row(From, base58(from)), R.Row(Amount, R.NumberOf(G.Amt(ONE_ONG), 18, " ONG")),
                R.Row(To, base58(to))],
      shown);
    assert shown + [] == shown;
  }

  lemma OngText()
    ensures LeValue(ONE_ONG.raw) == 1_000_000_000_000_000_000 && AmountText(1_000_000_000_000_000_000, 18) == "1"
  {
    Pow256Values();
    assert LeBytes(1_000_000_000_000_000_000, 8) == ONE_ONG.raw;
    LeValueOfBytes(1_000_000_000_000_000_000, 8);
    assert Pow10(9) == 1_000_000_000;
    assert Pow10(18) == 1_000_000_000 * Pow10(9);
    FixedZero(18);
    hide LeBytes, LeValue, Pow10, Pow256, Fixed, TrimZeros;
    assert Digits(1) == "1";
    assert Quotient(1_000_000_000_000_000_000, 18) == 1 && Remainder(1_000_000_000_000_000_000, 18) == 0;
  }

  // ----- calls of tokens in other virtual machines

  /** tests/test_oep4_neovm_approve_sign_cmd.py:29, and the same for WING. */
  function NeoApproval(from: seq<byte>, to: seq<byte>, addr: seq<byte>): (s: seq<byte>)
    ensures |s| == |from| + |to| + |addr| + 17
  {
    [0x03, 0x6b, 0x53, 0x14] + [0x14] + to + [0x14] + from + [0x53, 0xc1] +
    [0x07, 0x61, 0x70, 0x70, 0x72, 0x6f, 0x76, 0x65] + [0x67] + addr
  }

  const SOME_NUMBER := G.Prefixed([0x6b, 0x53, 0x14])

  function NeoPayload(from: seq<byte>, to: seq<byte>, addr: seq<byte>): G.Payload {
    G.NeoCall([G.Amt(SOME_NUMBER), G.Addr(to), G.Addr(from)], G.Push(3), G.Call(addr, APPROVE))
  }

  lemma NeoApprovalBytes(from: seq<byte>, to: seq<byte>, addr: seq<byte>)
    ensures G.PrintPayload(NeoPayload(from, to, addr)) == NeoApproval(from, to, addr)
  {
    Names();
    NeoArgsBytes(from, to);
    hide G.PrintName, G.PrintArgs, Ascii;
    var args := G.PrintArgs(NeoVm, NeoPayload(from, to, addr).args);
    assert G.PrintBody(NeoPayload(from, to, addr)) == args + [0x53, 0xc1];
    assert G.PrintTrailer(NeoVm, addr) == [0x67] + addr;
    Flat([0x03, 0x6b, 0x53, 0x14], [0x14], to, [0x14], from);
    Joined(args, [0x53, 0xc1], G.PrintName(APPROVE), [0x67] + addr);
    assert args + [0x53, 0xc1] + G.PrintName(APPROVE) + ([0x67] + addr) ==
      args + [0x53, 0xc1] + G.PrintName(APPROVE) + [0x67] + addr;
  }

  lemma Flat(a: seq<byte>, b: seq<byte>, c: seq<byte>, d: seq<byte>, e: seq<byte>)
    ensures a + (b + c) + (d + e) == a + b + c + d + e
  {
  }

  lemma NeoArgsBytes(from: seq<byte>, to: seq<byte>)
    ensures G.PrintArgs(NeoVm, [G.Amt(SOME_NUMBER), G.Addr(to), G.Addr(from)]) ==
            [0x03, 0x6b, 0x53, 0x14] + ([0x14] + to) + ([0x14] + from)
  {
    assert G.PrintValue(NeoVm, G.Amt(SOME_NUMBER)) == [0x03, 0x6b, 0x53, 0x14];
    hide G.PrintArgs, G.PrintAmount;
    ArgsPrinted(NeoVm, G.Amt(SOME_NUMBER), G.Addr(to), G.Addr(from));
  }

  /** Three arguments that are not native. */
  lemma ArgsPrinted(vm: Vm, x: G.Value, y: G.Value, z: G.Value)
    requires vm != NativeVm
    ensures G.PrintArgs(vm, [x, y, z]) == G.PrintValue(vm, x) + G.PrintValue(vm, y) + G.PrintValue(vm, z)
  {
    hide G.PrintValue;
    var args := [x, y, z];
    assert args[1..] == [y, z] && args[1..][1..] == [z] && args[1..][1..][1..] == [];
    var p, q, r := G.PrintValue(vm, x), G.PrintValue(vm, y), G.PrintValue(vm, z);
    assert G.PrintArgs(vm, args[1..][1..]) == r;
    assert G.PrintArgs(vm, args[1..]) == q + r;
    assert p + (q + r) == p + q + r;
  }

  lemma NeoPayloadOk(t: Target, from: seq<byte>, to: seq<byte>, addr: seq<byte>)
    requires |from| == |to| == 20 && (addr == WING_ADDR || addr == MBL_ADDR)
    ensures G.PayloadOk(t, NeoPayload(from, to, addr))
  {
    NeoLookup(addr);
    C.ThreeArgs(t, [G.Amt(SOME_NUMBER), G.Addr(to), G.Addr(from)]);
    hide G.ArgsOk, Lookup, Ascii;
  }

  lemma NeoLookup(addr: seq<byte>)
    requires addr == WING_ADDR || addr == MBL_ADDR
    ensures Lookup(addr, APPROVE).Some? && Lookup(addr, APPROVE).value.kinds == OEP4_KINDS
  {
    R.HomeOf(CONTRACTS[0].addr);
    assert FindContract(addr, if addr == WING_ADDR then 3 else 5).Some?;
    R.HomeOf(addr);
    NamesDiffer();
    assert TRANSFER != APPROVE && TRANSFER_FROM != APPROVE;
    hide Ascii;
  }

  lemma MblApprovalReviewed(t: Target, base58: Base58, nonce: seq<byte>, payer: seq<byte>, from: seq<byte>,
                            to: seq<byte>)
    requires |nonce| == 4 && |payer| == |from| == |to| == 20 && base58(from).Some? && base58(to).Some?
    ensures ReviewedAs(t, base58, Framed(0xd1, nonce, payer, NeoApproval(from, to,
                       [0x6d, 0x03, 0xa1, 0x68, 0x43, 0xe6, 0x1e, 0x5d, 0x96, 0xd3, 0x89, 0xe1, 0x78, 0x71, 0x7e, 0xd5,
                        0x7f, 0x9d, 0xa4, 0xe5])),
                       [Shown(From, base58(from).value), Shown(Amount, "0.01332075 MBL"), Shown(To, base58(to).value)])
  {
    NeoText();
    NeoRows(base58, from, to, 8, " MBL", "0.01332075 MBL");
    NeoApprovalReviewed(t, base58, nonce, payer, from, to, MBL_ADDR);
  }

  lemma WingApprovalReviewed(t: Target, base58: Base58, nonce: seq<byte>, payer: seq<byte>, from: seq<byte>,
                             to: seq<byte>)
    requires |nonce| == 4 && |payer| == |from| == |to| == 20 && base58(from).Some? && base58(to).Some?
    ensures ReviewedAs(t, base58, Framed(0xd1, nonce, payer, NeoApproval(from, to,
                       [0x80, 0xef, 0x58, 0x6e, 0xf5, 0xff, 0xf2, 0xb1, 0xea, 0x83, 0x78, 0x39, 0xd6, 0x62, 0xa5, 0x27,
                        0xcd, 0x9f, 0xc5, 0x00])),
                       [Shown(From, base58(from).value), Shown(Amount, "0.001332075 WING"),
                        Shown(To, base58(to).value)])
  {
    NeoText();
    NeoRows(base58, from, to, 9, " WING", "0.001332075 WING");
    NeoApprovalReviewed(t, base58, nonce, payer, from, to, WING_ADDR);
  }

  lemma NeoApprovalReviewed(t: Target, base58: Base58, nonce: seq<byte>, payer: seq<byte>, from: seq<byte>,
                            to: seq<byte>,
                            addr: seq<byte>)
    requires |nonce| == 4 && |payer| == |from| == |to| == 20 && (addr == WING_ADDR || addr == MBL_ADDR)
    requires R.CallRows(base58, G.Call(addr, APPROVE), NeoPayload(from, to, addr).args).Some?
    ensures ReviewedAs(t, base58, Framed(0xd1, nonce, payer, NeoApproval(from, to, addr)),
                       R.CallRows(base58, G.Call(addr, APPROVE), NeoPayload(from, to, addr).args).value)
  {
    var tx := G.Tx(Head(0xd1, nonce, payer), G.OneByte, NeoPayload(from, to, addr));
    NeoApprovalBytes(from, to, addr);
    NeoPayloadOk(t, from, to, addr);
    ApproveStands();
    hide NeoApproval, G.PrintPayload, Framed, G.TxOk, Deserialize, G.PayloadOk, Reviewed, AmountText, R.CallRows, Ascii;
    FramedAccepted(t, 0xd1, nonce, payer, tx.payload);
    R.CallReview(t, base58, tx);
  }

  lemma ApproveStands()
    ensures APPROVE != Ascii("authorizeForPeer") && APPROVE != Ascii("unAuthorizeForPeer") &&
            APPROVE != Ascii("withdraw")
    ensures TRANSFER != Ascii("authorizeForPeer") && TRANSFER != Ascii("unAuthorizeForPeer") &&
            TRANSFER != Ascii("withdraw")
    ensures SET_FEE_PERCENTAGE != Ascii("authorizeForPeer") && SET_FEE_PERCENTAGE != Ascii("unAuthorizeForPeer")
    ensures SET_FEE_PERCENTAGE != Ascii("withdraw")
  {
    NamesDiffer();
    assert Ascii("authorizeForPeer")[0] == 0x61 && Ascii("withdraw")[0] == 0x77;
  }

  lemma NeoRows(base58: Base58, from: seq<byte>, to: seq<byte>, d: nat, unit: string, text: string)
    requires base58(from).Some? && base58(to).Some?
    requires AmountText(1332075, d) + unit == text && ((d == 8 && unit == " MBL") || (d == 9 && unit == " WING"))
    ensures R.CallRows(base58, G.Call(if d == 8 then MBL_ADDR else WING_ADDR, APPROVE),
                       [G.Amt(SOME_NUMBER), G.Addr(to), G.Addr(from)]) ==
            Some([Shown(From, base58(from).value), Shown(Amount, text), Shown(To, base58(to).value)])
  {
    hide AmountText, LeValue, Ascii, R.CallRows, R.Written, R.NumberOf;
    NeoTable(base58, if d == 8 then MBL_ADDR else WING_ADDR, [G.Amt(SOME_NUMBER), G.Addr(to), G.Addr(from)]);
    NeoNumber(d, unit);
    R.HomeOf(CONTRACTS[0].addr);
    AllWritten([R.Row(From, base58(from)), R.Row(Amount, Some(text)), R.Row(To, base58(to))],
      [Shown(From, base58(from).value), Shown(Amount, text), Shown(To, base58(to).value)]);
  }

  lemma NeoNumber(d: nat, unit: string)
    ensures R.NumberOf(G.Amt(SOME_NUMBER), d, unit) == Some(AmountText(1332075, d) + unit)
  {
    NeoValue();
    hide AmountText, LeValue;
  }

  lemma NeoTable(base58: Base58, addr: seq<byte>, args: seq<G.Value>)
    requires |args| == 3 && (addr == WING_ADDR || addr == MBL_ADDR)
    ensures R.CallRows(base58, G.Call(addr, APPROVE), args) ==
            R.Written([R.Row(From, R.AddressOf(base58, args[2])),
                       R.Row(Amount, if addr == MBL_ADDR then R.NumberOf(args[0], 8, " MBL")
                                     else R.NumberOf(args[0], 9, " WING")),
                       R.Row(To, R.AddressOf(base58, args[1]))])
  {
    NamesDiffer();
    R.HomeOf(CONTRACTS[0].addr);
    hide AmountText, LeValue, Ascii, R.TokenRows, R.WasmRows, R.GovernanceRows, R.Written, R.AddressOf, R.NumberOf;
  }

  lemma NeoValue()
    ensures LeValue(SOME_NUMBER.raw) == 1332075
  {
    assert Pow256(3) == 0x100_0000;
    assert LeBytes(1332075, 3) == SOME_NUMBER.raw;
    LeValueOfBytes(1332075, 3);
  }

  lemma NeoText()
    ensures AmountText(1332075, 8) + " MBL" == "0.01332075 MBL"
    ensures AmountText(1332075, 9) + " WING" == "0.001332075 WING"
  {
    NeoDigits();
    assert Pow10(8) == 100_000_000 && Pow10(9) == 1_000_000_000;
    hide *;
    FractionText(1332075, 8);
    FractionText(1332075, 9);
    NeoJoined();
  }

  lemma NeoJoined()
    ensures "0." + "01332075" + " MBL" == "0.01332075 MBL"
    ensures "0." + "001332075" + " WING" == "0.001332075 WING"
  {
  }

  /** Below one, and with no zero at the end. */
  lemma FractionText(v: nat, p: nat)
    requires p > 0 && v < Pow10(p) && v % 10 != 0
    ensures AmountText(v, p) == "0." + Fixed(v, p)
  {
    assert Digits(0) == "0";
    hide Pow10, Digits, Fixed;
    assert Quotient(v, p) == 0 && Remainder(v, p) == v by {
      QuotientRemainder(v, Pow10(p), 0, v);
    }
    FixedStep(v, p);
    TrimLast(Fixed(v / 10, p - 1), v % 10);
    assert "0" + ['.'] + Fixed(v, p) == "0." + Fixed(v, p);
  }

  lemma NeoDigits()
    ensures Fixed(1332075, 8) == "01332075" && Fixed(1332075, 9) == "001332075"
  {
    NextDigit(133207, 5);
    NextDigit(13320, 7);
    NextDigit(1332, 0);
    NextDigit(133, 2);
    NextDigit(13, 3);
    NextDigit(1, 3);
    NextDigit(0, 1);
    NextDigit(0, 0);
    assert Fixed(0, 0) == "";
    hide Fixed;
  }

  /** tests/test_oep4_sign_cmd.py:29 */
  function WasmTransfer(from: seq<byte>, to: seq<byte>): (s: seq<byte>)
    ensures |s| == |from| + |to| + 46
  {
    [0xcd, 0x84, 0x1f, 0xf2, 0x17, 0xc6, 0x8d, 0xc2, 0xfa, 0xf8, 0x10, 0x63, 0x68, 0xc5, 0x57, 0x7b,
     0x12, 0x04, 0xec, 0xe9] +
    [0x41] + [0x08, 0x74, 0x72, 0x61, 0x6e, 0x73, 0x66, 0x65, 0x72] + from + to +
    [0x96, 0xc9, 0xb8, 0x2a, 0, 0, 0, 0, 0, 0, 0, 0, 0, 0, 0, 0]
  }

  const SOME_WORD := G.Uint128([0x96, 0xc9, 0xb8, 0x2a, 0, 0, 0, 0, 0, 0, 0, 0, 0, 0, 0, 0])

  function WasmPayload(from: seq<byte>, to: seq<byte>): G.Payload {
    G.WasmCall([G.Addr(from), G.Addr(to), SOME_WORD], G.Call(STONT_ADDR, TRANSFER))
  }

  lemma WasmTransferBytes(from: seq<byte>, to: seq<byte>)
    requires |from| == |to| == 20
    ensures G.PrintPayload(WasmPayload(from, to)) == WasmTransfer(from, to)
  {
    hide G.PrintName, G.PrintArgs, Ascii;
    Names();
    WasmArgsBytes(from, to);
    WasmJoined(STONT_ADDR, [0x41], G.PrintName(TRANSFER), from, to, SOME_WORD.raw);
  }

  lemma WasmJoined(a: seq<byte>, b: seq<byte>, c: seq<byte>, d: seq<byte>, e: seq<byte>, f: seq<byte>)
    ensures a + (b + (c + (d + e + f))) == a + b + c + d + e + f
  {
  }

  lemma WasmArgsBytes(from: seq<byte>, to: seq<byte>)
    ensures G.PrintArgs(WasmVm, [G.Addr(from), G.Addr(to), SOME_WORD]) == from + to + SOME_WORD.raw
  {
    hide G.PrintArgs;
    ArgsPrinted(WasmVm, G.Addr(from), G.Addr(to), SOME_WORD);
  }

  lemma WasmPayloadOk(t: Target, from: seq<byte>, to: seq<byte>)
    requires |from| == |to| == 20
    ensures G.PayloadOk(t, WasmPayload(from, to))
  {
    WasmLookup();
    WasmTransferBytes(from, to);
    var kinds, args := WASM_KINDS, [G.Addr(from), G.Addr(to), SOME_WORD];
    assert G.ArgsOk(t, kinds[1..][1..][1..], args[1..][1..][1..], 3);
    assert G.ArgsOk(t, kinds[1..][1..], args[1..][1..], 2);
    assert G.ArgsOk(t, kinds[1..], args[1..], 1);
    assert G.ArgsOk(t, kinds, args, 0);
    hide G.ArgsOk, Lookup, Ascii;
  }

  lemma WasmLookup()
    ensures Lookup(STONT_ADDR, TRANSFER).Some? && Lookup(STONT_ADDR, TRANSFER).value.kinds == WASM_KINDS
  {
    assert FindContract(STONT_ADDR, 4).Some?;
    R.HomeOf(CONTRACTS[0].addr);
    R.HomeOf(STONT_ADDR);
    hide Ascii;
  }

  lemma WasmTransferReviewed(t: Target, base58: Base58, nonce: seq<byte>, payer: seq<byte>, from: seq<byte>,
                             to: seq<byte>)
    requires |nonce| == 4 && |payer| == |from| == |to| == 20 && base58(from).Some? && base58(to).Some?
    ensures ReviewedAs(t, base58, Framed(0xd2, nonce, payer, WasmTransfer(from, to)),
                       [Shown(From, base58(from).value), Shown(Amount, "0.716753302 stONT"),
                        Shown(To, base58(to).value)])
  {
    var tx := G.Tx(Head(0xd2, nonce, payer), G.OneByte, WasmPayload(from, to));
    WasmTransferBytes(from, to);
    WasmPayloadOk(t, from, to);
    ApproveStands();
    StontRows(base58, from, to);
    R.HomeOf(CONTRACTS[0].addr);
    hide WasmTransfer, G.PrintPayload, Framed, G.TxOk, Deserialize, G.PayloadOk, Reviewed, AmountText, R.CallRows,
      Ascii;
    FramedAccepted(t, 0xd2, nonce, payer, tx.payload);
    R.CallReview(t, base58, tx);
  }

  lemma StontRows(base58: Base58, from: seq<byte>, to: seq<byte>)
    requires base58(from).Some? && base58(to).Some?
    ensures R.CallRows(base58, G.Call(STONT_ADDR, TRANSFER), [G.Addr(from), G.Addr(to), SOME_WORD]) ==
            Some([Shown(From, base58(from).value), Shown(Amount, "0.716753302 stONT"), Shown(To, base58(to).value)])
  {
    hide AmountText, LeValue, Ascii, R.CallRows, R.Written, R.NumberOf;
    StontTable(base58, [G.Addr(from), G.Addr(to), SOME_WORD]);
    StontText();
    AllWritten([R.Row(From, base58(from)), R.Row(Amount, Some("0.716753302 stONT")), R.Row(To, base58(to))],
      [Shown(From, base58(from).value), Shown(Amount, "0.716753302 stONT"), Shown(To, base58(to).value)]);
  }

  lemma StontTable(base58: Base58, args: seq<G.Value>)
    requires |args| == 3
    ensures R.CallRows(base58, G.Call(STONT_ADDR, TRANSFER), args) ==
            R.Written([R.Row(From, R.AddressOf(base58, args[0])), R.Row(Amount, R.NumberOf(args[2], 9, " stONT")),
                       R.Row(To, R.AddressOf(base58, args[1]))])
  {
    NamesDiffer();
    R.HomeOf(CONTRACTS[0].addr);
    hide AmountText, LeValue, Ascii, R.TokenRows, R.NeoRows, R.GovernanceRows, R.Written, R.AddressOf, R.NumberOf;
  }

  lemma StontText()
    ensures R.NumberOf(SOME_WORD, 9, " stONT") == Some("0.716753302 stONT")
  {
    hide AmountText, LeValue, Fixed;
    StontValue();
    StontDigits();
    NinePlaces(716753302);
    StontJoined();
  }

  lemma NinePlaces(v: nat)
    requires v < 1_000_000_000 && v % 10 != 0
    ensures AmountText(v, 9) == "0." + Fixed(v, 9)
  {
    assert Pow10(9) == 1_000_000_000;
    hide *;
    FractionText(v, 9);
  }

  lemma StontJoined()
    ensures "0." + "716753302" + " stONT" == "0.716753302 stONT"
  {
  }

  lemma StontValue()
    ensures LeValue(SOME_WORD.raw) == 716753302
  {
    hide LeValue, Pow256, LeBytes;
    Pow256Values();
    StontBytes();
    LeValueOfBytes(716753302, 16);
  }

  lemma StontBytes()
    ensures LeBytes(716753302, 16) == SOME_WORD.raw
  {
    hide LeBytes;
    NoBytes();
    NextByte(716753302, 16);
    NextByte(2799817, 15);
    NextByte(10936, 14);
    NextByte(42, 13);
  }

  lemma NoBytes()
    ensures LeBytes(0, 12) == [0, 0, 0, 0, 0, 0, 0, 0, 0, 0, 0, 0] && LeBytes(0, 6) == [0, 0, 0, 0, 0, 0]
  {
    assert LeBytes(0, 4) == [0, 0, 0, 0];
    assert LeBytes(0, 6) == [0, 0, 0, 0, 0, 0];
    assert LeBytes(0, 8) == [0, 0, 0, 0, 0, 0, 0, 0];
  }

  lemma NextByte(v: nat, n: nat)
    requires n > 0
    ensures LeBytes(v, n) == [v % 256] + LeBytes(v / 256, n - 1)
  {
  }

  lemma StontDigits()
    ensures Fixed(716753302, 9) == "716753302"
  {
    NextDigit(71675330, 2);
    NextDigit(7167533, 0);
    NextDigit(716753, 3);
    NextDigit(71675, 3);
    NextDigit(7167, 5);
    NextDigit(716, 7);
    NextDigit(71, 6);
    NextDigit(7, 1);
    NextDigit(0, 7);
    assert Fixed(0, 0) == "";
    hide Fixed;
  }

  // ----- governance

  /** tests/test_set_fee_percentage_cmd.py:37 */
  function FeePercentage(key: seq<byte>, stake: seq<byte>): (s: seq<byte>)
    ensures |s| == |key| + |stake| + 91
  {
    [0x00, 0xc6, 0x6b] + [0x42] + key + [0x6a, 0x7c, 0xc8] + [0x14] + stake + [0x6a, 0x7c, 0xc8] +
    [0x08, 0x21, 0, 0, 0, 0, 0, 0, 0] + [0x6a, 0x7c, 0xc8] + [0x5a] + [0x6a, 0x7c, 0xc8] + [0x6c] +
    [0x10, 0x73, 0x65, 0x74, 0x46, 0x65, 0x65, 0x50, 0x65, 0x72, 0x63, 0x65, 0x6e, 0x74, 0x61, 0x67,
     0x65] +
    NativeEnd(7)
  }

  const NODE_RATIO := G.Prefixed([0x21, 0, 0, 0, 0, 0, 0, 0])

  function FeeArgs(key: seq<byte>, stake: seq<byte>): seq<G.Value> {
    [G.PubKey(key), G.Addr(stake), G.Amt(NODE_RATIO), G.Amt(G.Push(10))]
  }

  function FeePayload(key: seq<byte>, stake: seq<byte>): G.Payload {
    G.NativeCall(FeeArgs(key, stake), G.Call(GOV_ADDR, SET_FEE_PERCENTAGE))
  }

  lemma FeePercentageBytes(key: seq<byte>, stake: seq<byte>)
    requires |key| == 66 && |stake| == 20
    ensures G.PrintPayload(FeePayload(key, stake)) == FeePercentage(key, stake)
  {
    hide G.PrintName, NativeEnd, G.PrintTrailer, G.PrintArgs, FeeArgs, Ascii;
    Names();
    NativeEnds();
    FeeArgsBytes(key, stake);
    CallBytes(G.PrintArgs(NativeVm, FeeArgs(key, stake)), G.PrintName(SET_FEE_PERCENTAGE), NativeEnd(7));
    FeeFlat([0x00, 0xc6, 0x6b], [0x42], key, [0x6a, 0x7c, 0xc8], [0x14], stake, [0x08, 0x21, 0, 0, 0, 0, 0, 0, 0],
            [0x5a]);
  }

  lemma FeeFlat(begin: seq<byte>, x: seq<byte>, key: seq<byte>, sep: seq<byte>, y: seq<byte>, stake: seq<byte>,
                n: seq<byte>, u: seq<byte>)
    ensures begin + ((x + key) + (sep + ((y + stake) + (sep + (n + (sep + (u + sep))))))) ==
            begin + x + key + sep + y + stake + sep + n + sep + u + sep
  {
    assert n + (sep + (u + sep)) == n + sep + u + sep;
    var tail := n + sep + u + sep;
    assert sep + ((y + stake) + (sep + tail)) == sep + y + stake + sep + tail;
    var rest := sep + y + stake + sep + tail;
    assert begin + ((x + key) + rest) == begin + x + key + rest;
    assert begin + x + key + rest == begin + x + key + sep + y + stake + sep + tail;
  }

  lemma FeeArgsBytes(key: seq<byte>, stake: seq<byte>)
    ensures var sep: seq<byte> := [0x6a, 0x7c, 0xc8];
            G.PrintArgs(NativeVm, FeeArgs(key, stake)) ==
            ([0x42] + key) + (sep + (([0x14] + stake) +
            (sep + ([0x08, 0x21, 0, 0, 0, 0, 0, 0, 0] + (sep + ([0x5a] + sep))))))
  {
    var args := FeeArgs(key, stake);
    assert args[1..] == [G.Addr(stake), G.Amt(NODE_RATIO), G.Amt(G.Push(10))];
    assert args[1..][1..] == [G.Amt(NODE_RATIO), G.Amt(G.Push(10))];
    assert args[1..][1..][1..] == [G.Amt(G.Push(10))];
    assert args[1..][1..][1..][1..] == [];
    assert G.PrintAmount(NODE_RATIO) == [0x08, 0x21, 0, 0, 0, 0, 0, 0, 0];
    var sep := OPCODE_PARAM_END;
    var k, a, n, u := G.PrintValue(NativeVm, args[0]), G.PrintValue(NativeVm, args[1]), G.PrintValue(NativeVm, args[2]),
      G.PrintValue(NativeVm, args[3]);
    assert k == [0x42] + key && a == [0x14] + stake && u == [0x5a];
    hide G.PrintValue;
    assert G.PrintArgs(NativeVm, args[1..][1..][1..]) == u + sep;
    assert G.PrintArgs(NativeVm, args[1..][1..]) == n + (sep + (u + sep));
    assert G.PrintArgs(NativeVm, args[1..]) == a + (sep + (n + (sep + (u + sep))));
  }

  lemma FeePayloadOk(t: Target, key: seq<byte>, stake: seq<byte>)
    requires |key| == 66 && |stake| == 20
    ensures G.PayloadOk(t, FeePayload(key, stake))
  {
    FeeLookup();
    var kinds, args := R.RATIO_KINDS, FeeArgs(key, stake);
    assert G.ArgsOk(t, kinds[1..][1..][1..][1..], args[1..][1..][1..][1..], 4);
    assert G.ArgsOk(t, kinds[1..][1..][1..], args[1..][1..][1..], 3);
    assert G.ArgsOk(t, kinds[1..][1..], args[1..][1..], 2);
    assert G.ArgsOk(t, kinds[1..], args[1..], 1);
    assert G.ArgsOk(t, kinds, args, 0);
    hide G.ArgsOk, Lookup, Ascii;
  }

  lemma FeeLookup()
    ensures Lookup(GOV_ADDR, SET_FEE_PERCENTAGE).Some? &&
            Lookup(GOV_ADDR, SET_FEE_PERCENTAGE).value.kinds == R.RATIO_KINDS
    ensures !IsToken(GOV_ADDR)
  {
    assert FindContract(GOV_ADDR, 2).Some?;
    R.HomeOf(CONTRACTS[0].addr);
    assert FindContract(GOV_ADDR, 0) == Some(CONTRACTS[2]);
    R.GovernanceDistinct();
    hide Ascii;
    assert FindMethod(GOVERNANCE_METHODS, SET_FEE_PERCENTAGE, 5) == Some(R.RATIO_KINDS);
    assert FindMethod(GOVERNANCE_METHODS, SET_FEE_PERCENTAGE, 4) == Some(R.RATIO_KINDS);
    assert FindMethod(GOVERNANCE_METHODS, SET_FEE_PERCENTAGE, 3) == Some(R.RATIO_KINDS);
    assert FindMethod(GOVERNANCE_METHODS, SET_FEE_PERCENTAGE, 2) == Some(R.RATIO_KINDS);
    assert FindMethod(GOVERNANCE_METHODS, SET_FEE_PERCENTAGE, 1) == Some(R.RATIO_KINDS);
    assert FindMethod(GOVERNANCE_METHODS, SET_FEE_PERCENTAGE, 0) == Some(R.RATIO_KINDS);
  }

  lemma FeePercentageReviewed(t: Target, base58: Base58, nonce: seq<byte>, payer: seq<byte>, key: seq<byte>,
                              stake: seq<byte>)
    requires |nonce| == 4 && |payer| == |stake| == 20 && |key| == 66 && base58(stake).Some?
    ensures ReviewedAs(t, base58, Framed(0xd1, nonce, payer, FeePercentage(key, stake)),
                       [Shown(StakeAddress, base58(stake).value), Shown(PeerPubkey, AsChars(key)),
                        Shown(PeerIncentive, "33%"), Shown(UserIncentive, "10%")])
  {
    var tx := G.Tx(Head(0xd1, nonce, payer), G.OneByte, FeePayload(key, stake));
    FeePercentageBytes(key, stake);
    FeePayloadOk(t, key, stake);
    ApproveStands();
    FeeRows(base58, key, stake);
    R.HomeOf(CONTRACTS[0].addr);
    hide FeePercentage, G.PrintPayload, Framed, G.TxOk, Deserialize, G.PayloadOk, Reviewed, AmountText, R.CallRows,
      Ascii,
      FeeArgs, AsChars;
    FramedAccepted(t, 0xd1, nonce, payer, tx.payload);
    R.CallReview(t, base58, tx);
  }

  lemma FeeRows(base58: Base58, key: seq<byte>, stake: seq<byte>)
    requires base58(stake).Some?
    ensures R.CallRows(base58, G.Call(GOV_ADDR, SET_FEE_PERCENTAGE), FeeArgs(key, stake)) ==
            Some([Shown(StakeAddress, base58(stake).value), Shown(PeerPubkey, AsChars(key)),
                  Shown(PeerIncentive, "33%"), Shown(UserIncentive, "10%")])
  {
    RatioTexts();
    R.GovernanceDistinct();
    R.HomeOf(CONTRACTS[0].addr);
    hide AmountText, LeValue, Ascii, AsChars;
    AllWritten([R.Row(StakeAddress, base58(stake)), R.Row(PeerPubkey, Some(AsChars(key))),
                R.Row(PeerIncentive, R.NumberOf(G.Amt(NODE_RATIO), 0, "%")),
                R.Row(UserIncentive, R.NumberOf(G.Amt(G.Push(10)), 0, "%"))],
      [Shown(StakeAddress, base58(stake).value), Shown(PeerPubkey, AsChars(key)),
       Shown(PeerIncentive, "33%"), Shown(UserIncentive, "10%")]);
  }

  lemma RatioTexts()
    ensures AmountText(LeValue(NODE_RATIO.raw), 0) + "%" == "33%" && AmountText(10, 0) + "%" == "10%"
  {
    hide LeValue, AmountText, Digits;
    EightBytes();
    WholeText(33);
    WholeText(10);
    SmallDigits();
  }

  /** tests/test_authorize_for_peer_cmd.py:37 */
  function Authorization(key: seq<byte>, stake: seq<byte>): (s: seq<byte>)
    ensures |s| == |key| + |stake| + 95
  {
    [0x00, 0xc6, 0x6b] + [0x14] + stake + [0x6a, 0x7c, 0xc8] + [0x51] + [0x6a, 0x7c, 0xc8] +
    [0x42] + key + [0x6a, 0x7c, 0xc8] + [0x51] + [0x6a, 0x7c, 0xc8] +
    [0x08, 0xe8, 0x03, 0, 0, 0, 0, 0, 0] + [0x6a, 0x7c, 0xc8] + [0x6c] +
    [0x10, 0x61, 0x75, 0x74, 0x68, 0x6f, 0x72, 0x69, 0x7a, 0x65, 0x46, 0x6f, 0x72, 0x50, 0x65, 0x65,
     0x72] +
    NativeEnd(7)
  }

  const THOUSAND := G.Prefixed([0xe8, 0x03, 0, 0, 0, 0, 0, 0])

  function Authorized(key: seq<byte>): G.Value {
    G.Pairs(G.Push(1), [key], G.Push(1), [THOUSAND])
  }

  function AuthorizationPayload(key: seq<byte>, stake: seq<byte>): G.Payload {
    G.NativeCall([G.Addr(stake), Authorized(key)], G.Call(GOV_ADDR, AUTHORIZE_FOR_PEER))
  }

  lemma AuthorizationBytes(key: seq<byte>, stake: seq<byte>)
    requires |key| == 66 && |stake| == 20
    ensures G.PrintPayload(AuthorizationPayload(key, stake)) == Authorization(key, stake)
  {
    Names();
    NativeEnds();
    AuthorizedBytes(key);
    StakeArgsBytes(stake, Authorized(key));
    hide G.PrintPairs, G.PrintArgs, Ascii, Authorized, G.PrintName, NativeEnd, G.PrintTrailer;
    CallBytes(G.PrintArgs(NativeVm, [G.Addr(stake), Authorized(key)]), G.PrintName(AUTHORIZE_FOR_PEER), NativeEnd(7));
    Nested([0x14], stake, [0x6a, 0x7c, 0xc8], [0x51], [0x42], key, [0x08, 0xe8, 0x03, 0, 0, 0, 0, 0, 0],
      G.PrintName(AUTHORIZE_FOR_PEER), NativeEnd(7));
  }

  lemma Nested(x: seq<byte>, stake: seq<byte>, sep: seq<byte>, one: seq<byte>, y: seq<byte>, key: seq<byte>,
               n: seq<byte>, name: seq<byte>, end: seq<byte>)
    ensures [0x00, 0xc6, 0x6b] + (x + stake + sep + (one + sep + y + key + sep + one + sep + n) + sep) + [0x6c] +
            name + end
            == [0x00, 0xc6, 0x6b] + x + stake + sep + one + sep + y + key + sep + one + sep + n + sep + [0x6c] +
              name + end
  {
    var front, rest := x + stake + sep, one + sep + y + key + sep + one + sep + n;
    assert front + rest == x + stake + sep + one + sep + y + key + sep + one + sep + n;
    var begin: seq<byte> := [0x00, 0xc6, 0x6b];
    assert begin + (front + rest + sep) == begin + (front + rest) + sep;
    assert begin + (x + stake + sep + one + sep + y + key + sep + one + sep + n) ==
      begin + x + stake + sep + one + sep + y + key + sep + one + sep + n;
  }

  lemma CallBytes(body: seq<byte>, name: seq<byte>, end: seq<byte>)
    ensures OPCODE_ST_BEGIN + (body + OPCODE_ST_END) + (name + end) == [0x00, 0xc6, 0x6b] + body + [0x6c] + name + end
  {
  }

  lemma StakeArgsBytes(stake: seq<byte>, v: G.Value)
    requires v.Pairs?
    ensures G.PrintArgs(NativeVm, [G.Addr(stake), v]) ==
            [0x14] + stake + [0x6a, 0x7c, 0xc8] + G.PrintPairs(v) + [0x6a, 0x7c, 0xc8]
  {
    hide G.PrintPairs;
    var args := [G.Addr(stake), v];
    assert args[1..] == [v] && args[1..][1..] == [];
    assert G.PrintArgs(NativeVm, args[1..]) == G.PrintPairs(v) + [0x6a, 0x7c, 0xc8];
    assert G.PrintValue(NativeVm, args[0]) == [0x14] + stake;
    hide G.PrintValue;
    Joined([0x14] + stake, [0x6a, 0x7c, 0xc8], G.PrintPairs(v), [0x6a, 0x7c, 0xc8]);
  }

  lemma AuthorizedBytes(key: seq<byte>)
    ensures G.PrintPairs(Authorized(key)) ==
            [0x51] + [0x6a, 0x7c, 0xc8] + [0x42] + key + [0x6a, 0x7c, 0xc8] +
            [0x51] + [0x6a, 0x7c, 0xc8] + [0x08, 0xe8, 0x03, 0, 0, 0, 0, 0, 0]
  {
    assert [key][1..] == [] && G.PrintKeys([key]) == [0x42] + key + [0x6a, 0x7c, 0xc8];
    assert G.PrintAmounts([THOUSAND]) == [0x08, 0xe8, 0x03, 0, 0, 0, 0, 0, 0];
    assert G.PrintAmount(G.Push(1)) == [0x51];
    hide G.PrintKeys, G.PrintAmounts, G.PrintAmount;
  }

  lemma AuthorizationReviewed(t: Target, base58: Base58, nonce: seq<byte>, payer: seq<byte>, key: seq<byte>,
                              stake: seq<byte>)
    requires |nonce| == 4 && |payer| == |stake| == 20 && |key| == 66 && base58(stake).Some?
    ensures ReviewedAs(t, base58, Framed(0xd1, nonce, payer, Authorization(key, stake)),
                       [Shown(StakeAddress, base58(stake).value), Shown(PeerPubkey, AsChars(key)),
                        Shown(StakeAmount, "1000 ONT")])
  {
    var tx := G.Tx(Head(0xd1, nonce, payer), G.OneByte, AuthorizationPayload(key, stake));
    AuthorizationBytes(key, stake);
    AuthorizationOk(t, key, stake);
    AuthorizeStakes();
    StakeOfOne(tx, key, stake);
    hide Authorization, G.PrintPayload, Framed, G.TxOk, Deserialize, G.PayloadOk, Reviewed, AmountText, Ascii,
      AsChars, IsStaking, StakeIn, StakeWritten;
    FramedAccepted(t, 0xd1, nonce, payer, tx.payload);
    StakingShown(t, base58, tx);
    ReviewOfOne(base58, InfoOf(tx), StakeIn(tx), Reviewed(base58, tx));
    StakingReview(t, base58, tx);
    OnePeerWritten(base58, key, stake, Reviewed(base58, tx).value);
  }

  lemma AuthorizeStakes()
    ensures IsStaking(AUTHORIZE_FOR_PEER) && AUTHORIZE_FOR_PEER == Ascii("authorizeForPeer")
  {
  }

  lemma ReviewOfOne(base58: Base58, info: Info, s: Stake, shown: Option<seq<Shown>>)
    requires |s.keys| == |s.amounts| == 1 && base58(s.hash).Some? && StakeReview(base58, info, s, shown)
    ensures shown.Some?
  {
    hide StakeRows;
  }

  lemma StakeOfOne(tx: G.Tx, key: seq<byte>, stake: seq<byte>)
    requires tx.payload == AuthorizationPayload(key, stake)
    ensures Stakes(tx) && StakeIn(tx) == Stake(stake, [key], [THOUSAND])
  {
    AuthorizeStakes();
    hide IsStaking, Ascii;
  }

  lemma AuthorizationOk(t: Target, key: seq<byte>, stake: seq<byte>)
    requires |key| == 66 && |stake| == 20
    ensures G.PayloadOk(t, AuthorizationPayload(key, stake))
  {
    AuthorizeStakes();
    C.GovernanceLookup(AUTHORIZE_FOR_PEER);
    C.StakeArgs(t, stake, Authorized(key));
    hide G.ArgsOk, Lookup, Ascii, IsStaking;
  }

  lemma OnePeerWritten(base58: Base58, key: seq<byte>, stake: seq<byte>, rows: seq<Shown>)
    requires StakeWritten(base58, Stake(stake, [key], [THOUSAND]), StakeAmount, rows)
    ensures base58(stake).Some?
    ensures rows == [Shown(StakeAddress, base58(stake).value), Shown(PeerPubkey, AsChars(key)),
                     Shown(StakeAmount, "1000 ONT")]
  {
    ThousandText();
    hide AmountText, LeValue, AsChars;
    var s := Stake(stake, [key], [THOUSAND]);
    assert s.keys[0] == key && s.amounts[0] == THOUSAND;
  }

  lemma ThousandText()
    ensures AmountText(LeValue(THOUSAND.raw), 0) + " ONT" == "1000 ONT"
  {
    hide LeValue, AmountText, Digits;
    EightBytes();
    WholeText(1000);
    SmallDigits();
    assert "1000" + " ONT" == "1000 ONT";
  }

  lemma EightBytes()
    ensures LeValue(THOUSAND.raw) == 1000 && LeValue(NODE_RATIO.raw) == 33
  {
    hide LeValue, LeBytes, Pow256;
    Pow256Values();
    RawBytes();
    LeValueOfBytes(1000, 8);
    LeValueOfBytes(33, 8);
  }

  lemma RawBytes()
    ensures LeBytes(1000, 8) == THOUSAND.raw && LeBytes(33, 8) == NODE_RATIO.raw
  {
    hide LeBytes;
    NoBytes();
    NextByte(1000, 8);
    NextByte(3, 7);
    NextByte(33, 8);
    NextByte(0, 7);
  }

  lemma WholeText(v: nat)
    ensures AmountText(v, 0) == Digits(v)
  {
    hide Quotient, Remainder, Digits;
    QuotientByOne(v);
    FixedZero(0);
  }

  lemma SmallDigits()
    ensures Digits(1000) == "1000" && Digits(33) == "33" && Digits(10) == "10"
  {
    NextDigit(100, 0);
    NextDigit(10, 0);
    NextDigit(1, 0);
    NextDigit(3, 3);
    assert Digits(1) == "1" && Digits(3) == "3";
    hide Digits;
  }

  // ----- numbers

  lemma NextDigit(n: nat, d: nat)
    requires d < 10
    ensures n > 0 ==> Digits(10 * n + d) == Digits(n) + [Digit(d)]
    ensures forall k: nat :: Fixed(10 * n + d, k + 1) == Fixed(n, k) + [Digit(d)]
  {
  }
}
