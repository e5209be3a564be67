/**
 The app: one object for its globals (G_context, g_buffers, g_pairs and the stored setting), with a
 method per C function. Each method is proved to do what the state machine of `Session` says, and
 what it puts on the screen is read back through the references it wrote.
 */
module App {
  import opened Options
  import opened Bytes
  import opened TxTypes
  import opened Contracts
  import G = Grammar
  import opened ParserSpec
  import opened ParserLaws
  import opened Decimal
  import opened Reader
  import opened CStrings
  import opened Deserializer
  import opened StoredFields
  import opened MessageText
  import opened DisplayPlan
  import opened DisplayLaws
  import opened Display
  import opened ReviewLaws
  import Screen
  import opened Review
  import opened Session

  /** Some prefix of the bytes got past the size test, so parameters may have been stored. */
  predicate OncePassed(t: Target, raw: seq<byte>) {
    exists n :: 0 <= n <= |raw| && PassesGate(t, raw[..n])
  }

  /** The main loop, up to the first event that cannot happen: whatever arrives, the exchange is a
      run of the state machine. */
  method AppMain(env: Env, blind: bool, events: seq<Event>) returns (tr: seq<Exchange>)
    ensures Run(env, blind, tr).Some?
    ensures |tr| <= |events| && forall i :: 0 <= i < |tr| ==> tr[i].event == events[i]
    ensures |tr| < |events| ==> !Enabled(Run(env, blind, tr).value, events[|tr|])
  {
    hide Step;
    var device := new Device(env, blind);
    tr := [];
    while |tr| < |events| && (events[|tr|].Choice? <==> device.pending != NoReview)
      invariant fresh(device.Repr()) && device.env == env && device.Valid()
      invariant Run(env, blind, tr) == Some(device.Abstract())
      invariant |tr| <= |events| && forall i :: 0 <= i < |tr| ==> tr[i].event == events[i]
      decreases |events| - |tr|
    {
      var e := events[|tr|];
      var out := device.Handle(e);
      var longer := tr + [Exchange(e, out)];
      assert longer[..|tr|] == tr;
      tr := longer;
    }
  }

  method Zero(a: array<byte>)
    modifies a
    ensures forall i :: 0 <= i < a.Length ==> a[i] == 0
  {
    forall i | 0 <= i < a.Length { a[i] := 0; }
  }

  class Device {
    const env: Env

    // G_context
    var phase: Phase
    var req: Request
    var path: Path
    var key: seq<byte>
    const rawTx: array<byte>
    var rawTxLen: nat
    const transaction: Transaction
    var txHash: seq<byte>
    const rawMsg: array<byte>
    var rawMsgLen: nat
    var msgHash: seq<byte>

    // the screen
    const pairs: array<Pair>
    const cells: array<Content>
    var nbPairs: nat
    const text: array<char>

    // the open review and the stored setting
    var pending: Pending
    var blind: bool

    ghost function Repr(): set<object> {
      {this, rawTx, transaction, transaction.parameters, rawMsg, pairs, cells, text}
    }

    ghost predicate Shaped()
      reads this
    {
      && rawTx.Length == env.t.maxTx && rawTxLen <= rawTx.Length
      && rawMsg.Length == MAX_MESSAGE_LEN && rawMsgLen <= rawMsg.Length && rawMsg != rawTx
      && transaction.parameters.Length == env.t.maxParams
      && Roomy(env.t, pairs, cells) && text.Length == (env.t.maxParams + 2) * 67
      && |path.words| == MAX_BIP32_PATH
    }

    function Raw(): seq<byte>
      requires rawTxLen <= rawTx.Length
      reads this, rawTx
    {
      rawTx[..rawTxLen]
    }

    function Msg(): seq<byte>
      requires rawMsgLen <= rawMsg.Length
      reads this, rawMsg
    {
      rawMsg[..rawMsgLen]
    }

    /** The variant of the union that the request stands for. */
    ghost function Live(): Union
      requires Shaped()
      reads this, rawTx, rawMsg
    {
      match req
      case ConfirmAddress => PkInfo(key)
      case ConfirmTransaction => TxInfo(Raw(), txHash)
      case ConfirmMessage => MsgInfo(Msg(), msgHash)
    }

    /** This object as a state of the state machine. */
    ghost function Abstract(): State
      requires Shaped()
      reads this, rawTx, rawMsg
    {
      State(Context(phase, req, Live(), path), pending, blind)
    }

    /** Slots are only in use if a prefix of the bytes passed the size test. */
    ghost predicate SlotsClean()
      requires Shaped()
      reads this, rawTx, transaction.parameters
    {
      req == ConfirmTransaction && !Unused(transaction.parameters[..]) ==> OncePassed(env.t, Raw())
    }

    ghost predicate Valid()
      reads this, rawTx, transaction.parameters
    {
      && Shaped() && SlotsClean()
      && (pending == AddressPending ==> req == ConfirmAddress)
      && (pending == TxPending ==> req == ConfirmTransaction)
      && (pending == MsgPending ==> req == ConfirmMessage)
    }

    constructor (env: Env, blind: bool)
      ensures Valid() && this.env == env && fresh(Repr())
      ensures Abstract() == State(ZERO_CONTEXT, NoReview, blind)
    {
      this.env, this.blind, pending := env, blind, NoReview;
      phase, req, path, key := NoPhase, ConfirmAddress, ZERO_PATH, [];
      rawTx := new byte[env.t.maxTx](_ => 0);
      rawMsg := new byte[MAX_MESSAGE_LEN](_ => 0);
      rawTxLen, rawMsgLen, txHash, msgHash, nbPairs := 0, 0, [], [], 0;
      transaction := new Transaction(env.t);
      pairs := new Pair[env.t.maxParams + 2](_ => NoPair);
      cells := new Content[env.t.maxParams + 3](_ => Blank);
      text := new char[(env.t.maxParams + 2) * 67](_ => '\0');
    }

    // ----- sessions

    method ClearUnion()
      modifies rawTx, rawMsg, transaction, transaction.parameters
      ensures Unused(transaction.parameters[..])
    {
      Zero(rawTx);
      Zero(rawMsg);
      transaction.Clear();
    }

    /** explicit_bzero of the context; the request is set right after it. */
    method ResetContext(req: Request)
      requires Shaped() && pending == NoReview
      modifies this`phase, this`req, this`path, this`key, this`rawTxLen, this`txHash, this`rawMsgLen, this`msgHash
      modifies rawTx, rawMsg, transaction, transaction.parameters
      ensures Valid() && path == ZERO_PATH
      ensures Abstract() == Session.Reset(old(Abstract()), req, ZERO_PATH)
    {
      hide OncePassed;
      ClearUnion();
      rawTxLen, txHash, rawMsgLen, msgHash, key, path, phase := 0, [], 0, [], [], ZERO_PATH, NoPhase;
      this.req := req;
    }

    /** The length byte and the words behind it, as far as they are there. */
    method ReadPath(data: seq<byte>) returns (ok: bool)
      requires path == ZERO_PATH
      modifies this`path
      ensures path == PathOf(data) && ok == PathComplete(data)
    {
      if data == [] {
        return false;
      }
      path := path.(len := data[0]);
      if path.len == 0 || path.len > MAX_BIP32_PATH {
        return false;
      }
      var i := 0;
      while i < path.len
        invariant i <= path.len == data[0] && |path.words| == MAX_BIP32_PATH && 1 + 4 * i <= |data|
        invariant forall k :: 0 <= k < MAX_BIP32_PATH ==> path.words[k] == if k < i then BeWord(data, 1 + 4 * k) else 0
      {
        if 1 + 4 * i + 4 > |data| {
          return false;
        }
        path := path.(words := path.words[i := BeWord(data, 1 + 4 * i)]);
        i := i + 1;
      }
      ok := true;
    }

    /** The part the three handlers share: a fresh context with the path of the first chunk. */
    method OpenSession(req: Request, data: seq<byte>) returns (sw: nat)
      requires Shaped() && pending == NoReview
      modifies this`phase, this`req, this`path, this`key, this`rawTxLen, this`txHash, this`rawMsgLen, this`msgHash
      modifies rawTx, rawMsg, transaction, transaction.parameters
      ensures Valid() && sw == PathAnswer(data)
      ensures Abstract() == Session.Reset(old(Abstract()), req, PathOf(data))
    {
      hide PathOf, PathComplete, ValidPrefix;
      ResetContext(req);
      var ok := ReadPath(data);
      if !ok {
        return SW_WRONG_DATA_LENGTH;
      }
      if !ValidPrefix(path) {
        return SW_INVALID_PATH;
      }
      sw := SW_OK;
    }

    // ----- reviews

    /** What a successful parse of the collected bytes left behind. */
    ghost predicate Ready(o: Outcome)
      requires Shaped()
      reads this, rawTx, transaction, transaction.parameters
    {
      && o == Deserialize(env.t, Raw())
      && match o
         case Accepted(tx) =>
           && transaction.Stores(Raw(), tx.header) && transaction.Calls(Raw(), G.VmOf(tx.payload), tx.payload.call)
           && transaction.ticker == InfoOf(tx).ticker && transaction.decimals == InfoOf(tx).decimals
           && |G.TxSlots(env.t, tx)| <= env.t.maxParams
           && WellStored(InfoOf(tx), Raw(), transaction.parameters[..], |G.TxSlots(env.t, tx)|)
           && transaction.parameters[..|G.TxSlots(env.t, tx)|] == G.TxSlots(env.t, tx)
         case Undefined(h, found, name) =>
           transaction.Stores(Raw(), h) && transaction.Calls(Raw(), found.vm, G.Call(found.addr, name))
         case _ => false
    }

    ghost predicate ClosingWritten(h: G.Header, signer: string)
      requires Shaped()
      reads this, cells
    {
      && cells[env.t.maxParams + 1] == Chars(Closing(h, signer)[0].text)
      && cells[env.t.maxParams + 2] == Chars(signer)
    }

    /** Clears the screen and writes the fee, then the signer behind it. */
    method WriteClosing(ghost h: G.Header) returns (ok: bool)
      requires Shaped() && transaction.gasPrice == h.gasPrice && transaction.gasLimit == h.gasLimit
      modifies cells, this`nbPairs
      ensures ok == SignerOf(env, path).Some?
      ensures ok ==> ClosingWritten(h, SignerOf(env, path).value)
    {
      hide AmountText, Times;
      TimesIsProduct(h.gasPrice, h.gasLimit);
      forall i | 0 <= i < cells.Length { cells[i] := Blank; }
      nbPairs := 0;
      var fee := GasText((transaction.gasPrice * transaction.gasLimit) % U64);
      cells[env.t.maxParams + 1] := Chars(fee);
      var signer := SignerOf(env, path);
      if signer.None? {
        return false;
      }
      cells[env.t.maxParams + 2] := Chars(signer.value);
      cells[env.t.maxParams + 1] := Chars(Overlaid(fee, signer.value, FEE_ROOM));
      ok := true;
    }

    /** What the display takes from the parsed transaction. */
    method CurrentInfo(ghost tx: G.Tx) returns (info: Info)
      requires Shaped() && Ready(Accepted(tx))
      ensures info == InfoOf(tx)
    {
      hide Deserialize, G.TxSlots, WellStored, Decimals, Ticker;
      info := Info(transaction.vm, SlotBytes(Raw(), transaction.name), transaction.ticker, transaction.decimals);
    }

    /** The stored parameters yield the plan of the transaction. */
    lemma StoredPlan(tx: G.Tx)
      requires Shaped() && Ready(Accepted(tx))
      ensures var k := |G.TxSlots(env.t, tx)|;
              && k <= env.t.maxParams && transaction.parameters.Length == env.t.maxParams
              && WellStored(InfoOf(tx), Raw(), transaction.parameters[..], k)
              && AllIn(Raw(), transaction.parameters[..k])
              && var fields := FieldsOf(env.base58, InfoOf(tx), Raw(), transaction.parameters[..k]);
                 var shown := Reviewed(env.base58, tx);
                 Plan(InfoOf(tx), fields) == shown && (shown.Some? ==> |shown.value| <= env.t.maxParams)
    {
      hide Deserialize, G.TxSlots, Plan, FieldsOf, InfoOf, WellStored, Reviewed, AllIn;
      PlanOfSlots(env.t, env.base58, Raw());
      Screen.PlanLength(InfoOf(tx), FieldsOf(env.base58, InfoOf(tx), Raw(), G.TxSlots(env.t, tx)));
    }

    /** init_dipslay_pos_and_item and handle_params on the parsed transaction. */
    method ShowParams(ghost tx: G.Tx) returns (ok: bool)
      requires Shaped() && Ready(Accepted(tx))
      modifies pairs, cells, this`nbPairs
      ensures var shown := Reviewed(env.base58, tx);
              && ok == shown.Some?
              && (ok ==> nbPairs == |shown.value| <= env.t.maxParams
                         && Shows(pairs[..], cells[..], env.t.maxParams + 1, shown.value))
      ensures Only(pairs, cells, 0, 0, env.t.maxParams + 1)
    {
      hide Ready, G.TxSlots, Plan, Configs, FieldsOf, Shows, WellStored, InfoOf, Reviewed, AllIn;
      var info := CurrentInfo(tx);
      StoredPlan(tx);
      ghost var k := |G.TxSlots(env.t, tx)|;
      PlanNeedsConfigs(info, FieldsOf(env.base58, info, Raw(), transaction.parameters[..k]));
      var configs := new Config[MAX_CONFIGS](_ => Config(From, 0));
      var count := InitDisplayPosAndItem(info.vm, info.name, configs);
      if count.None? {
        return false;
      }
      var used := configs[..count.value];
      PlannedPrefix(configs[..], count.value, Configs(info.vm, info.name));
      assert configs[..][..count.value] == used;
      ok, nbPairs := HandleParams(env.t, env.base58, info, Raw(), transaction.parameters, k, used, pairs, cells);
    }

    /** ui_display_normal_transaction. */
    method NormalRows(ghost tx: G.Tx, ghost signer: string) returns (rows: Option<seq<Shown>>)
      requires Shaped() && Ready(Accepted(tx)) && ClosingWritten(tx.header, signer)
      modifies pairs, cells, this`nbPairs
      ensures rows == match Reviewed(env.base58, tx)
                      case None => None
                      case Some(shown) => Some(shown + Closing(tx.header, signer))
    {
      hide Deserialize, G.TxSlots, Reviewed, Shows, AmountText, WellStored, InfoOf;
      var ok := ShowParams(tx);
      if !ok {
        return None;
      }
      ghost var want := Reviewed(env.base58, tx).value;
      nbPairs := Screen.AddClosing(env.t, pairs, cells, nbPairs, want, Closing(tx.header, signer)[0].text, signer);
      var shown := Screen.ReadScreen(pairs, cells, nbPairs, want + Closing(tx.header, signer));
      rows := Some(shown);
    }

    /** ui_display_bs_transaction: the warning and the contract's address in hexadecimal. */
    method BlindRowsOf(ghost h: G.Header, ghost found: Found, ghost name: seq<byte>, ghost signer: string)
      returns (rows: seq<Shown>)
      requires Shaped() && Ready(Undefined(h, found, name)) && ClosingWritten(h, signer)
      modifies pairs, cells, this`nbPairs
      ensures rows == BlindRows(found.addr) + Closing(h, signer)
    {
      hide Deserialize, Hex, AmountText, Shows;
      UndefinedAddress(env.t, Raw());
      var hex := HexOf(SlotBytes(Raw(), transaction.addr));
      pairs[0] := Pair(Fixed(Caption(BlindSignTx)), Fixed(Chars(BLIND_SIGNING)));
      cells[0] := Chars(hex);
      pairs[1] := Pair(Fixed(Caption(ContractAddress)), Cell(0));
      nbPairs := 2;
      BlindShown(pairs[..], cells[..], env.t.maxParams + 1, found.addr);
      nbPairs := Screen.AddClosing(env.t, pairs, cells, nbPairs, BlindRows(found.addr), Closing(h, signer)[0].text,
                                   signer);
      rows := Screen.ReadScreen(pairs, cells, nbPairs, BlindRows(found.addr) + Closing(h, signer));
    }

    /** The part of ui_display_transaction behind its guard. */
    method TransactionRows(isBlind: bool, ghost o: Outcome) returns (v: Verdict)
      requires Shaped() && Ready(o) && isBlind == o.Undefined?
      modifies this`nbPairs, pairs, cells
      ensures v == TxReview(env, o, path)
    {
      hide Deserialize, Reviewed, AmountText, Hex, G.TxSlots, Closing, BlindRows, WellStored;
      ghost var h := if o.Undefined? then o.header else o.tx.header;
      var ok := WriteClosing(h);
      if !ok {
        return Refused(SW_DISPLAY_ADDRESS_FAIL);
      }
      ghost var signer := SignerOf(env, path).value;
      if isBlind {
        var rows := BlindRowsOf(h, o.found, o.name, signer);
        v := Rows(rows);
      } else {
        var rows := NormalRows(o.tx, signer);
        v := if rows.None? then Refused(SW_INVALID_TRANSACTION) else Rows(rows.value);
      }
    }

    /** Opens the review, unless it was refused. */
    method Open(kind: Pending, v: Verdict) returns (out: Output)
      modifies this`pending
      ensures pending == if v.Rows? then kind else old(pending)
      ensures out == if v.Rows? then ReviewOf(kind, v.rows) else Answer(v.sw)
    {
      match v
      case Refused(sw) => out := Answer(sw);
      case Rows(rows) =>
        pending := kind;
        out := ReviewOf(kind, rows);
    }

    /** ui_display_transaction. */
    method UiDisplayTransaction(isBlind: bool, ghost o: Outcome) returns (out: Output)
      requires Valid() && pending == NoReview && Ready(o) && isBlind == o.Undefined?
      modifies this`phase, this`pending, this`nbPairs, pairs, cells
      ensures Valid() && Next(Abstract(), out) == UiTransaction(env, old(Abstract()), o)
    {
      hide Ready, TxReview, OncePassed;
      if req != ConfirmTransaction || phase != Session.Parsed {
        phase := NoPhase;
        return Answer(SW_BAD_STATE);
      }
      var v := TransactionRows(isBlind, o);
      out := Open(TxPending, v);
    }

    // ----- transactions

    /** handler_hash_tx_and_display_tx. */
    method HashTxAndDisplay(isBlind: bool, hashOk: bool, ghost o: Outcome) returns (out: Output)
      requires Valid() && pending == NoReview && Ready(o) && isBlind == o.Undefined? && req == ConfirmTransaction
      modifies this`phase, this`txHash, this`pending, this`nbPairs, pairs, cells
      ensures Valid() && Next(Abstract(), out) == HashAndDisplay(env, old(Abstract()), Raw(), o, hashOk)
    {
      hide Deserialize, G.TxSlots, WellStored, InfoOf, TxReview, OncePassed;
      if !hashOk {
        return Answer(SW_HASH_FAIL);
      }
      txHash := env.sha(Raw());
      var secondHash := env.sha(txHash);
      txHash := env.sha(secondHash);
      phase := Session.Parsed;
      out := UiDisplayTransaction(isBlind, o);
    }

    /** Appends a chunk that fits to the collected bytes. */
    method AppendTx(data: seq<byte>)
      requires Shaped() && rawTxLen + |data| <= rawTx.Length
      modifies this`rawTxLen, rawTx
      ensures Shaped() && Raw() == old(Raw()) + data && rawTxLen == old(rawTxLen) + |data|
    {
      forall i | 0 <= i < |data| { rawTx[rawTxLen + i] := data[i]; }
      rawTxLen := rawTxLen + |data|;
    }

    /** Parses what was collected. The bytes are longer than when a chunk last passed the size test,
        so the slots are fresh whenever the parse succeeds. */
    method ParseTx() returns (status: Status)
      requires Shaped() && req == ConfirmTransaction && rawTxLen > 0
      requires Unused(transaction.parameters[..]) || OncePassed(env.t, Raw()[..rawTxLen - 1])
      modifies transaction, transaction.parameters
      ensures Shaped() && SlotsClean() && status == StatusOf(Deserialize(env.t, Raw()))
      ensures status == OK || status == TX_NOT_DEFINED ==> Ready(Deserialize(env.t, Raw()))
    {
      hide Deserialize, G.TxSlots, OncePassed, PassesGate, WellStored;
      var b := Raw();
      ghost var was := transaction.parameters[..];
      var buf := new Buffer(b);
      status := TransactionDeserialize(env.t, buf, transaction);
      ParsedOnce(env.t, b, was);
      if status == OK {
        SlotsStart(env.t, b);
        AcceptedIsWellStored(env.t, b, transaction.parameters[..], was);
      }
    }

    /** handler_sign_tx. A chunk never arrives empty. */
    method HandlerSignTx(data: seq<byte>, chunk: byte, more: bool, hashOk: bool) returns (out: Output)
      requires Valid() && pending == NoReview && data != []
      modifies this, rawTx, rawMsg, transaction, transaction.parameters, pairs, cells
      ensures Valid() && Next(Abstract(), out) == SignTx(env, old(Abstract()), data, chunk, more, hashOk)
    {
      hide Deserialize, OncePassed, Ready, HashAndDisplay, PathOf, PathAnswer;
      if chunk == 0 {
        var sw := OpenSession(ConfirmTransaction, data);
        return Answer(sw);
      }
      if req != ConfirmTransaction {
        return Answer(SW_BAD_STATE);
      }
      if rawTxLen + |data| > rawTx.Length {
        return Answer(SW_WRONG_TX_LENGTH);
      }
      ghost var before := Raw();
      AppendTx(data);
      PassedBefore(env.t, before, Raw());
      if more {
        return Answer(SW_OK);
      }
      var status := ParseTx();
      var isBlind := status == TX_NOT_DEFINED && blind;
      if status != OK && !isBlind {
        return Answer(SW_TX_PARSING_FAIL);
      }
      out := HashTxAndDisplay(isBlind, hashOk, Deserialize(env.t, Raw()));
    }

    // ----- messages

    method AppendMsg(data: seq<byte>)
      requires Shaped() && rawMsgLen + |data| <= rawMsg.Length
      modifies this`rawMsgLen, rawMsg
      ensures Shaped() && Msg() == old(Msg()) + data && rawMsgLen == old(rawMsgLen) + |data|
    {
      forall i | 0 <= i < |data| { rawMsg[rawMsgLen + i] := data[i]; }
      rawMsgLen := rawMsgLen + |data|;
    }

    /** The part of ui_display_message behind its guard: the message in front of the signer. */
    method MessageRows() returns (v: Verdict)
      requires Shaped()
      modifies this`nbPairs, pairs, cells, text
      ensures v == MessageReview(env, Msg(), path)
    {
      hide Visible, Shows;
      var signer := SignerOf(env, path);
      if signer.None? {
        return Refused(SW_DISPLAY_ADDRESS_FAIL);
      }
      var room := text.Length - MAX_BUFFER_LEN;
      ghost var shown := Visible(Msg(), room);
      var ok := MakeMessageVisible(Msg(), text, room);
      if !ok {
        return Refused(SW_PERSONAL_MSG_PARSING_FAIL);
      }
      var n := StrLen(text, shown);
      cells[0], cells[1] := Chars(text[..n]), Chars(signer.value);
      pairs[0] := Pair(Fixed(Caption(Message)), Cell(0));
      pairs[1] := Pair(Fixed(Caption(Signer)), Cell(1));
      nbPairs := 2;
      ghost var want := [Shown(Message, shown), Shown(Signer, signer.value)];
      TwoShown(pairs[..], cells[..], want);
      var rows := Screen.ReadScreen(pairs, cells, nbPairs, want);
      v := Rows(rows);
    }

    /** ui_display_message. */
    method UiDisplayMessage() returns (out: Output)
      requires Valid() && pending == NoReview
      modifies this`phase, this`pending, this`nbPairs, pairs, cells, text
      ensures Valid() && Next(Abstract(), out) == UiMessage(env, old(Abstract()), Msg())
    {
      hide OncePassed, MessageReview;
      if req != ConfirmMessage || phase != Session.Parsed {
        phase := NoPhase;
        return Answer(SW_BAD_STATE);
      }
      var v := MessageRows();
      out := Open(MsgPending, v);
    }

    /** handler_sign_message. */
    method HandlerSignMessage(data: seq<byte>, chunk: byte, more: bool, hashOk: bool) returns (out: Output)
      requires Valid() && pending == NoReview
      modifies this, rawTx, rawMsg, transaction, transaction.parameters, pairs, cells, text
      ensures Valid() && Next(Abstract(), out) == SignMessage(env, old(Abstract()), data, chunk, more, hashOk)
    {
      hide OncePassed, PathOf, PathAnswer, MessageReview;
      if chunk == 0 {
        var sw := OpenSession(ConfirmMessage, data);
        return Answer(sw);
      }
      if req != ConfirmMessage {
        return Answer(SW_BAD_STATE);
      }
      if rawMsgLen + |data| > rawMsg.Length {
        return Answer(SW_WRONG_DATA_LENGTH);
      }
      AppendMsg(data);
      if more {
        return Answer(SW_OK);
      }
      phase := Session.Parsed;
      if !hashOk {
        return Answer(SW_HASH_FAIL);
      }
      var len := Digits(rawMsgLen);
      msgHash := env.sha(SIGN_MAGIC + Ascii(len) + Msg());
      out := UiDisplayMessage();
    }

    // ----- keys

    /** handler_get_public_key with ui_display_address. */
    method HandlerGetPublicKey(data: seq<byte>, display: bool) returns (out: Output)
      requires Valid() && pending == NoReview
      modifies this, rawTx, rawMsg, transaction, transaction.parameters
      ensures Valid() && Next(Abstract(), out) == GetPublicKey(env, old(Abstract()), data, display)
    {
      hide OncePassed, PathOf, PathAnswer;
      var sw := OpenSession(ConfirmAddress, data);
      if sw != SW_OK {
        return Answer(sw);
      }
      var derived := env.key(path);
      if derived.KeyError? {
        return Answer(derived.sw);
      }
      key := derived.bytes;
      if !display {
        return KeyData(key);
      }
      var shown := env.addressOf(key);
      if shown.None? {
        return Answer(SW_DISPLAY_ADDRESS_FAIL);
      }
      pending := AddressPending;
      out := ReviewOf(AddressPending, [Shown(Address, shown.value)]);
    }

    // ----- decisions

    method ValidatePubkey(choice: bool) returns (out: Output)
      requires Valid() && pending == AddressPending
      modifies this`pending
      ensures Valid() && Next(Abstract(), out) == Validate(old(Abstract()), choice, true)
    {
      hide OncePassed;
      pending := NoReview;
      out := if choice then KeyData(key) else Answer(SW_DENY);
    }

    method ValidateTransaction(choice: bool, signOk: bool) returns (out: Output)
      requires Valid() && pending == TxPending
      modifies this`pending, this`phase
      ensures Valid() && Next(Abstract(), out) == Validate(old(Abstract()), choice, signOk)
    {
      hide OncePassed;
      pending := NoReview;
      if choice {
        phase := Approved;
        if !signOk {
          phase := NoPhase;
          out := Answer(SW_SIGNATURE_FAIL);
        } else {
          out := Signed(TxPending, path, txHash);
        }
      } else {
        phase := NoPhase;
        out := Answer(SW_DENY);
      }
    }

    method ValidatePersonalMsg(choice: bool, signOk: bool) returns (out: Output)
      requires Valid() && pending == MsgPending
      modifies this`pending, this`phase
      ensures Valid() && Next(Abstract(), out) == Validate(old(Abstract()), choice, signOk)
    {
      hide OncePassed;
      pending := NoReview;
      if choice {
        phase := Approved;
        if !signOk {
          phase := NoPhase;
          out := Answer(SW_SIGNATURE_FAIL);
        } else {
          out := Signed(MsgPending, path, msgHash);
        }
      } else {
        phase := NoPhase;
        out := Answer(SW_DENY);
      }
    }

    // ----- commands

    /** apdu_dispatcher. */
    method ApduDispatcher(cmd: Command, hashOk: bool) returns (out: Output)
      requires Valid() && pending == NoReview
      modifies Repr()
      ensures Valid() && Next(Abstract(), out) == Dispatch(env, old(Abstract()), cmd, hashOk)
    {
      hide OncePassed, SignTx, SignMessage, GetPublicKey;
      if cmd.cla != CLA {
        return Answer(SW_CLA_NOT_SUPPORTED);
      }
      if cmd.ins == INS_GET_VERSION || cmd.ins == INS_GET_APP_NAME {
        if cmd.p1 != 0 || cmd.p2 != 0 {
          return Answer(SW_WRONG_P1P2);
        }
        return Constant(cmd.ins);
      }
      if cmd.ins == INS_GET_PUBLIC_KEY {
        if cmd.p1 > 1 || cmd.p2 > 0 {
          return Answer(SW_WRONG_P1P2);
        }
        if cmd.data == [] {
          return Answer(SW_WRONG_DATA_LENGTH);
        }
        out := HandlerGetPublicKey(cmd.data, cmd.p1 == 1);
        return;
      }
      if cmd.ins != INS_SIGN_TX && cmd.ins != INS_SIGN_MESSAGE {
        return Answer(SW_INS_NOT_SUPPORTED);
      }
      if (cmd.p1 == P1_START && cmd.p2 != P2_MORE) || cmd.p1 > P1_MAX || (cmd.p2 != P2_LAST && cmd.p2 != P2_MORE) {
        return Answer(SW_WRONG_P1P2);
      }
      if cmd.data == [] {
        return Answer(SW_WRONG_DATA_LENGTH);
      }
      if cmd.ins == INS_SIGN_TX {
        out := HandlerSignTx(cmd.data, cmd.p1, cmd.p2 == P2_MORE, hashOk);
      } else {
        out := HandlerSignMessage(cmd.data, cmd.p1, cmd.p2 == P2_MORE, hashOk);
      }
    }

    /** One event of a run; the app itself only ever sees events in this order. */
    method Handle(e: Event) returns (out: Output)
      requires Valid() && Enabled(Abstract(), e)
      modifies Repr()
      ensures Valid() && Next(Abstract(), out) == Step(env, old(Abstract()), e)
    {
      hide OncePassed, Dispatch, Decide;
      match e
      case Apdu(cmd, hashOk) => out := ApduDispatcher(cmd, hashOk);
      case Setting(setting) =>
        blind := setting;
        out := Silent;
      case Choice(confirm, signOk) =>
        match pending {
          case AddressPending => out := ValidatePubkey(confirm);
          case TxPending => out := ValidateTransaction(confirm, signOk);
          case MsgPending => out := ValidatePersonalMsg(confirm, signOk);
        }
    }
  }

  /** What the parse of `b` does to the invariant of the slots. */
  lemma ParsedOnce(t: Target, b: seq<byte>, was: seq<Slot>)
    requires |b| > 0 && (Unused(was) || OncePassed(t, b[..|b| - 1]))
    ensures PassesGate(t, b) ==> OncePassed(t, b)
    ensures !Unused(was) ==> OncePassed(t, b) && Deserialize(t, b) == WrongLength && !PassesGate(t, b)
    ensures Recognised(t, b) ==> Unused(was)
  {
    hide PassesGate, Deserialize;
    assert b[..|b|] == b;
    if !Unused(was) {
      var n :| 0 <= n <= |b| - 1 && PassesGate(t, b[..|b| - 1][..n]);
      assert b[..|b| - 1][..n] == b[..n];
      GateIsPrefixFree(t, b[..n], b);
    }
  }

  lemma PassedBefore(t: Target, before: seq<byte>, b: seq<byte>)
    requires before < b
    ensures OncePassed(t, before) ==> OncePassed(t, b[..|b| - 1]) && OncePassed(t, b)
  {
    hide PassesGate;
    if OncePassed(t, before) {
      var n :| 0 <= n <= |before| && PassesGate(t, before[..n]);
      assert before[..n] == b[..n] == b[..|b| - 1][..n];
    }
  }

  lemma SlotsStart(t: Target, b: seq<byte>)
    requires Deserialize(t, b).Accepted?
    ensures var tx := Deserialize(t, b).tx; G.PayloadSlots(tx.payload, SizeAt(t, b, 42).end) == G.TxSlots(t, tx)
  {
    hide Deserialize, SizeAt, G.PayloadSlots, Hold, Contents;
    AcceptedSlotsHold(t, b);
  }

  lemma TwoShown(pairs: seq<Pair>, cells: seq<Content>, want: seq<Shown>)
    requires |want| == 2 && |pairs| >= 2 && |cells| >= 2
    requires pairs[0] == Pair(Fixed(Caption(want[0].caption)), Cell(0)) && cells[0] == Chars(want[0].text)
    requires pairs[1] == Pair(Fixed(Caption(want[1].caption)), Cell(1)) && cells[1] == Chars(want[1].text)
    ensures Shows(pairs, cells, |cells|, want)
  {
  }

  /** format_hex into a 67-byte slot. */
  method HexOf(addr: seq<byte>) returns (hex: string)
    requires |addr| == 20
    ensures hex == Hex(addr)
  {
    hide Hex;
    var buffer := new char[MAX_BUFFER_LEN](_ => '\0');
    var written := FormatHex(addr, buffer, 0, MAX_BUFFER_LEN);
    assert buffer[0..] == buffer[..];
    var n := StrLen(buffer, Hex(addr));
    hex := buffer[..n];
  }

  lemma BlindShown(pairs: seq<Pair>, cells: seq<Content>, limit: nat, addr: seq<byte>)
    requires |pairs| >= 2 && 1 <= limit <= |cells|
    requires pairs[0] == Pair(Fixed(Caption(BlindSignTx)), Fixed(Chars(BLIND_SIGNING)))
    requires pairs[1] == Pair(Fixed(Caption(ContractAddress)), Cell(0)) && cells[0] == Chars(Hex(addr))
    ensures Shows(pairs, cells, limit, BlindRows(addr))
  {
    hide Hex;
  }

  lemma PlanNeedsConfigs(info: Info, fields: seq<Field>)
    ensures Configs(info.vm, info.name).None? ==> Plan(info, fields).None?
  {
  }

  lemma PlannedPrefix(configs: seq<Config>, n: nat, c: Option<seq<Config>>)
    requires Planned(configs, Some(n), c)
    ensures n <= |configs| && c == Some(configs[..n])
  {
    assert c.value == configs[..n];
  }

  lemma UndefinedAddress(t: Target, b: seq<byte>)
    ensures var o := Deserialize(t, b); o.Undefined? ==> |o.found.addr| == 20
  {
    hide HeaderAt, SizeAt, MethodAt, BodyAt;
  }
}
