/**
 Complete reviews, from the bytes to be signed: the parameters, the fee and the signer. The SDK's
 key derivation, hashing and Base58 are functions given from outside.
 */
module Review {
  import opened Options
  import opened Bytes
  import opened TxTypes
  import G = Grammar
  import opened ParserSpec
  import opened Decimal
  import opened MessageText
  import opened DisplayPlan
  import opened DisplayLaws
  import opened ParserLaws

  /** A BIP-32 path as stored: ten words, of which `len` are meant. */
  datatype Path = Path(words: seq<nat>, len: nat)

  datatype KeyResult = Key(bytes: seq<byte>) | KeyError(sw: nat)

  /** What the app calls: SHA-256, Base58Check, key derivation, and the address of a key. */
  datatype Env = Env(t: Target, sha: seq<byte> -> seq<byte>, base58: Base58, key: Path -> KeyResult,
                     addressOf: seq<byte> -> Option<string>)

  // ----- paths

  const MAX_BIP32_PATH: nat := 10
  const BIP44_PURPOSE: nat := 0x8000002c
  const BIP44_COIN_TYPE_1024: nat := 0x80000400
  const BIP44_COIN_TYPE_888: nat := 0x80000378

  const ZERO_PATH := Path([0, 0, 0, 0, 0, 0, 0, 0, 0, 0], 0)

  function BeWord(b: seq<byte>, off: nat): nat
    requires off + 4 <= |b|
  {
    var w: seq<int> := b[off..off + 4];
    w[0] * 0x100_0000 + w[1] * 0x1_0000 + w[2] * 0x100 + w[3]
  }

  /** The path a first chunk leaves behind, complete or not. */
  function PathOf(data: seq<byte>): (p: Path)
    ensures |p.words| == MAX_BIP32_PATH
  {
    if data == [] then ZERO_PATH
    else
      Path(seq(MAX_BIP32_PATH, i requires 0 <= i < MAX_BIP32_PATH =>
             if i < data[0] <= MAX_BIP32_PATH && 1 + 4 * i + 4 <= |data| then BeWord(data, 1 + 4 * i) else 0),
           data[0])
  }

  /** The chunk holds as many words as it announces. */
  predicate PathComplete(data: seq<byte>) {
    data != [] && 1 <= data[0] <= MAX_BIP32_PATH && 1 + 4 * data[0] <= |data|
  }

  /** is_valid_bip44_prefix. */
  predicate ValidPrefix(p: Path)
    requires |p.words| == MAX_BIP32_PATH
  {
    && p.len >= 2
    && p.words[0] == BIP44_PURPOSE
    && (p.words[1] == BIP44_COIN_TYPE_1024 || p.words[1] == BIP44_COIN_TYPE_888)
  }

  /** derive_address_from_bip32_path. */
  function SignerOf(env: Env, p: Path): Option<string> {
    match env.key(p)
    case Key(k) => env.addressOf(k)
    case KeyError(_) => None
  }

  // ----- the fee

  const ONG_DECIMALS: nat := 9

  /** The 17 bytes between the total amount and the signer. */
  const FEE_ROOM: nat := 17

  /** calc_gas_chars, with the SDK's decimal text. */
  function GasText(fee: nat): string {
    AmountText(fee, ONG_DECIMALS) + " ONG"
  }

  function FeeText(h: G.Header): string {
    GasText(G.Fee(h) % U64)
  }

  /** A text too long for its room, with its NUL, runs on into the next one. */
  function Overlaid(text: string, next: string, room: nat): string {
    if |text| < room then text else text[..room] + next
  }

  // ----- transactions

  datatype Verdict = Rows(rows: seq<Shown>) | Refused(sw: nat)

  const SW_DISPLAY_ADDRESS_FAIL: nat := 0xb002
  const SW_PERSONAL_MSG_PARSING_FAIL: nat := 0xb009
  const SW_INVALID_TRANSACTION: nat := 0xb00a

  function Closing(h: G.Header, signer: string): seq<Shown> {
    [Shown(GasFee, Overlaid(FeeText(h), signer, FEE_ROOM)), Shown(Signer, signer)]
  }

  const BLIND_SIGNING: string := "Transaction cannot be verified!"

  function BlindRows(addr: seq<byte>): seq<Shown> {
    [Shown(BlindSignTx, BLIND_SIGNING), Shown(ContractAddress, Hex(addr))]
  }

  /** The review of a transaction that was recognised; others have none. */
  function TxReview(env: Env, o: Outcome, p: Path): Verdict {
    match SignerOf(env, p)
    case None => Refused(SW_DISPLAY_ADDRESS_FAIL)
    case Some(signer) =>
      match o
      case Undefined(h, found, _) => Rows(BlindRows(found.addr) + Closing(h, signer))
      case Accepted(tx) =>
        (match Reviewed(env.base58, tx)
         case None => Refused(SW_INVALID_TRANSACTION)
         case Some(rows) => Rows(rows + Closing(tx.header, signer)))
      case _ => Refused(SW_INVALID_TRANSACTION)
  }

  // ----- messages

  const MAX_MESSAGE_LEN: nat := 1024

  /** Room for the message in front of the signer's slot. */
  function MessageRoom(t: Target): nat {
    (t.maxParams + 1) * 67
  }

  function MessageReview(env: Env, msg: seq<byte>, p: Path): Verdict {
    match SignerOf(env, p)
    case None => Refused(SW_DISPLAY_ADDRESS_FAIL)
    case Some(signer) =>
      var text := Visible(msg, MessageRoom(env.t));
      if msg == [] || |text| >= MessageRoom(env.t) then Refused(SW_PERSONAL_MSG_PARSING_FAIL)
      else Rows([Shown(Message, text), Shown(Signer, signer)])
  }

  /** Every message that can be collected is shown in full, if the signer can be. */
  lemma MessageAlwaysShown(env: Env, msg: seq<byte>, p: Path)
    requires 1 <= |msg| <= MAX_MESSAGE_LEN && SignerOf(env, p).Some?
    ensures var v := MessageReview(env, msg, p);
            && v.Rows? && |v.rows| == 2 && v.rows[0].caption == Message && ShowsMessage(v.rows[0].text, msg)
            && v.rows[1] == Shown(Signer, SignerOf(env, p).value)
  {
    NeverTruncated(msg, env.t.maxParams);
    VisibleMeans(msg, MessageRoom(env.t));
  }

  // ----- what the fee row says

  /** Length of an amount text by its two parts. */
  lemma TextLength(v: nat, p: nat, n: nat)
    requires n > 0 && v < Pow10(n) * Pow10(p)
    ensures |AmountText(v, p)| <= n + 1 + p
  {
    hide Digits, Fixed, TrimZeros;
    QuotientBelow(v, Pow10(p), Pow10(n));
    DigitsLength(Quotient(v, p), n);
  }

  lemma QuotientBelow(v: nat, d: nat, q: nat)
    requires d > 0 && v < q * d
    ensures v / d < q
  {
  }

  /** No header is accepted whose fee text is more than seven characters too long. */
  lemma FeeTextLength(h: G.Header)
    requires G.HeaderOk(h)
    ensures |FeeText(h)| <= FEE_ROOM + 7
  {
    hide AmountText;
    FeeFits(h);
    assert Pow10(9) == 1_000_000_000;
    assert Pow10(10) == 10 * Pow10(9);
    TextLength(G.Fee(h), ONG_DECIMALS, 10);
  }

  /** Trimming takes off a last zero and stops at any other digit. */
  lemma TrimLast(f: string, d: nat)
    requires d < 10
    ensures TrimZeros(f + [Digit(d)]) == if d == 0 then TrimZeros(f) else f + [Digit(d)]
  {
    var w := f + [Digit(d)];
    assert w[|w| - 1] == Digit(d) && w[..|w| - 1] == f;
  }

  /** A fraction loses `m` of its `n` digits exactly if the number ends in that many zeros. */
  lemma {:induction false} TrimmedLength(v: nat, n: nat, m: nat)
    requires m <= n
    ensures |TrimZeros(Fixed(v, n))| <= n - m <==> v % Pow10(m) == 0
  {
    hide Fixed, Pow10, TrimZeros, Digit;
    if m > 0 {
      FixedStep(v, n);
      TrimLast(Fixed(v / 10, n - 1), v % 10);
      TrimmedLength(v / 10, n - 1, m - 1);
      Pow10Step(m);
      ModTenTimes(v, Pow10(m - 1));
    } else {
      PowZero();
    }
  }

  lemma PowZero()
    ensures Pow10(0) == 1
  {
  }

  lemma ModTenTimes(v: nat, p: nat)
    requires p > 0
    ensures v % (10 * p) == 0 <==> v % 10 == 0 && v / 10 % p == 0
  {
    var q, k := v / 10, v / 10 / p;
    assert v == 10 * q + v % 10 && q == k * p + q % p;
    TenTimes(k, p);
    assert v == k * (10 * p) + (10 * (q % p) + v % 10);
    QuotientRemainder(v, 10 * p, k, 10 * (q % p) + v % 10);
  }

  /** Reducing a number to its last digits does not change them. */
  lemma {:induction false} FixedOfRemainder(v: nat, n: nat)
    ensures Fixed(Remainder(v, n), n) == Fixed(v, n)
  {
    if n > 0 {
      QuotientStep(v, n);
      FixedOfRemainder(v / 10, n - 1);
      hide Remainder;
    }
  }

  /** Digits of the whole number of ONG in the fee. */
  function WholeDigits(h: G.Header): nat {
    |Digits(Quotient(G.Fee(h), ONG_DECIMALS))|
  }

  /** How many trailing zeros a fee must have for its text to fit: none below 100 ONG, and one more
      for every further digit. */
  function ZerosNeeded(h: G.Header): nat {
    if WholeDigits(h) <= 2 then 0 else WholeDigits(h) - 2
  }

  lemma WholeDigitsBound(h: G.Header)
    requires G.HeaderOk(h)
    ensures 1 <= WholeDigits(h) <= 10 && ZerosNeeded(h) <= 8
  {
    FeeFits(h);
    assert Pow10(9) == 1_000_000_000;
    assert Pow10(10) == 10 * Pow10(9);
    hide Digits;
    QuotientBelow(G.Fee(h), Pow10(9), Pow10(10));
    DigitsLength(Quotient(G.Fee(h), 9), 10);
  }

  /** The text of the fee fits with its NUL if and only if the fee ends in so many zeros. */
  lemma FeeFitsIff(h: G.Header)
    requires G.HeaderOk(h)
    ensures |FeeText(h)| < FEE_ROOM <==> G.Fee(h) % Pow10(ZerosNeeded(h)) == 0
  {
    FeeFits(h);
    WholeDigitsBound(h);
    var fee, m := G.Fee(h), ZerosNeeded(h);
    hide Digits, Fixed, TrimZeros, G.Fee, WholeDigits, Pow10, Quotient;
    FixedOfRemainder(fee, 9);
    TrimmedLength(fee, 9, m);
    TrimmedLength(fee, 9, 9);
    if fee % Pow10(9) == 0 {
      MoreZeros(fee, m, 9);
    }
    FeeTextParts(h);
  }

  /** A number that ends in `n` zeros ends in fewer. */
  lemma {:induction false} MoreZeros(v: nat, m: nat, n: nat)
    requires m <= n && v % Pow10(n) == 0
    ensures v % Pow10(m) == 0
  {
    if m > 0 {
      Pow10Step(n);
      Pow10Step(m);
      ModTenTimes(v, Pow10(n - 1));
      ModTenTimes(v, Pow10(m - 1));
      hide Pow10;
      MoreZeros(v / 10, m - 1, n - 1);
    } else {
      PowZero();
    }
  }

  lemma FeeTextParts(h: G.Header)
    requires G.Fee(h) < U64
    ensures var fraction := TrimZeros(Fixed(Remainder(G.Fee(h), 9), 9));
            |FeeText(h)| == WholeDigits(h) + (if fraction == [] then 0 else 1 + |fraction|) + 4
  {
    hide Digits, Fixed, TrimZeros, G.Fee, Quotient, Remainder;
  }

  /** Behind an accepted header and in front of an address (34 characters), the fee is shown as
      computed if and only if it ends in as many zeros as its size asks for. */
  lemma FeeShownExactly(h: G.Header, signer: string)
    requires G.HeaderOk(h) && |signer| >= 8
    ensures Closing(h, signer)[0].text == FeeText(h) <==> G.Fee(h) % Pow10(ZerosNeeded(h)) == 0
  {
    hide AmountText, Pow10, ZerosNeeded;
    FeeTextLength(h);
    FeeFitsIff(h);
  }

  /** The last two rows written out: price times limit in ONG, running on into the signer if it leaves no
      room for its NUL, and the signer. */
  predicate ClosesWith(rows: seq<Shown>, h: G.Header, signer: string) {
    var fee := FeeInOng(h);
    && |rows| == 2
    && rows[0] == Shown(GasFee, if |fee| < 17 then fee else fee[..17] + signer)
    && rows[1] == Shown(Signer, signer)
  }

  /** What the user is to pay at most. */
  function FeeInOng(h: G.Header): string {
    AmountText(h.gasPrice * h.gasLimit, 9) + " ONG"
  }

  lemma FeeWritten(h: G.Header)
    requires G.HeaderOk(h)
    ensures FeeText(h) == FeeInOng(h)
  {
    hide AmountText, G.Fee;
    FeeFits(h);
  }

  /** The two closing rows: the signer's text, and the fee exactly under that condition. */
  lemma ClosingRows(h: G.Header, signer: string)
    requires G.HeaderOk(h)
    ensures ClosesWith(Closing(h, signer), h, signer)
    ensures |signer| >= 8 ==>
              (Closing(h, signer)[0].text == FeeInOng(h) <==> G.Fee(h) % Pow10(ZerosNeeded(h)) == 0)
  {
    hide AmountText, Pow10, ZerosNeeded, GasText, FeeText, FeeInOng, G.Fee;
    FeeWritten(h);
    if |signer| >= 8 {
      FeeShownExactly(h, signer);
    }
  }

  /** The warning and the contract's address, which can be read back from its digits. */
  lemma BlindRowsRead(addr: seq<byte>)
    ensures var rows := BlindRows(addr);
            && |rows| == 2 && rows[0] == Shown(BlindSignTx, "Transaction cannot be verified!")
            && rows[1].caption == ContractAddress && SpellsHex(rows[1].text, addr)
  {
    HexSpells(addr);
    hide Hex;
  }

  /** Which it does below 100 ONG. */
  lemma SmallFeeFits(h: G.Header)
    requires G.HeaderOk(h) && G.Fee(h) < 100_000_000_000
    ensures ZerosNeeded(h) == 0 && |FeeText(h)| < FEE_ROOM
  {
    assert Pow10(9) == 1_000_000_000 && Pow10(2) == 100 && Pow10(0) == 1;
    FeeFitsIff(h);
    hide Digits, Pow10;
    QuotientBelow(G.Fee(h), Pow10(9), Pow10(2));
    DigitsLength(Quotient(G.Fee(h), 9), 2);
  }
}
