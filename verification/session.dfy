/**
 The signing session as a state machine: commands and user decisions over one global context
 (src/apdu/dispatcher.c, src/handler, src/ui/action/validate.c). The C union is a tagged value; an
 access to a variant that is not there would be the output `Wild`. Reviews are modal: while one is
 open the only possible event is the user's choice.
 */
module Session {
  import opened Options
  import opened Bytes
  import opened Contracts
  import opened ParserSpec
  import opened Decimal
  import opened DisplayPlan
  import opened Review

  // ----- protocol constants (src/sw.h, src/constants.h, src/types.h, src/apdu/dispatcher.h)

  const SW_OK: nat := 0x9000
  const SW_DENY: nat := 0x6985
  const SW_WRONG_P1P2: nat := 0x6a86
  const SW_WRONG_DATA_LENGTH: nat := 0x6a87
  const SW_INS_NOT_SUPPORTED: nat := 0x6d00
  const SW_CLA_NOT_SUPPORTED: nat := 0x6e00
  const SW_WRONG_TX_LENGTH: nat := 0xb004
  const SW_TX_PARSING_FAIL: nat := 0xb005
  const SW_HASH_FAIL: nat := 0xb006
  const SW_BAD_STATE: nat := 0xb007
  const SW_SIGNATURE_FAIL: nat := 0xb008
  const SW_INVALID_PATH: nat := 0xb00b

  const CLA: byte := 0x80
  const INS_SIGN_TX: byte := 0x02
  const INS_GET_VERSION: byte := 0x03
  const INS_GET_PUBLIC_KEY: byte := 0x04
  const INS_GET_APP_NAME: byte := 0x05
  const INS_SIGN_MESSAGE: byte := 0x07

  const P1_START: byte := 0
  const P1_MAX: byte := 0x1b
  const P2_LAST: byte := 0
  const P2_MORE: byte := 0x80

  // ----- state

  datatype Phase = NoPhase | Parsed | Approved
  datatype Request = ConfirmAddress | ConfirmTransaction | ConfirmMessage

  /** The union of global_ctx_t. Signatures are only written just before they are sent. */
  datatype Union =
    | PkInfo(key: seq<byte>)
    | TxInfo(raw: seq<byte>, hash: seq<byte>)
    | MsgInfo(raw: seq<byte>, hash: seq<byte>)

  datatype Context = Context(phase: Phase, req: Request, union: Union, path: Path)

  datatype Pending = NoReview | AddressPending | TxPending | MsgPending

  datatype State = State(ctx: Context, pending: Pending, blind: bool)

  const ZERO_CONTEXT := Context(NoPhase, ConfirmAddress, PkInfo([]), ZERO_PATH)

  // ----- events and outputs

  datatype Command = Command(cla: byte, ins: byte, p1: byte, p2: byte, data: seq<byte>)

  /** What happens to the app. `hashOk` and `signOk` are the outcomes of the SDK calls. */
  datatype Event =
    | Apdu(cmd: Command, hashOk: bool)
    | Choice(confirm: bool, signOk: bool)
    | Setting(blind: bool)

  datatype Output =
    | Answer(sw: nat)
    | Constant(ins: byte)
    | KeyData(key: seq<byte>)
    | ReviewOf(kind: Pending, rows: seq<Shown>)
    | Signed(kind: Pending, path: Path, hash: seq<byte>)
    | Silent
    | Wild

  datatype Next = Next(state: State, output: Output)

  predicate Enabled(s: State, e: Event) {
    e.Choice? <==> s.pending != NoReview
  }

  // ----- handlers

  /** After explicit_bzero of the context; zeroed memory is any empty variant. */
  function Reset(s: State, req: Request, path: Path): State {
    var union := match req
      case ConfirmAddress => PkInfo([])
      case ConfirmTransaction => TxInfo([], [])
      case ConfirmMessage => MsgInfo([], []);
    s.(ctx := Context(NoPhase, req, union, path))
  }

  /** The answer to a path. */
  function PathAnswer(data: seq<byte>): nat {
    if !PathComplete(data) then SW_WRONG_DATA_LENGTH
    else if !ValidPrefix(PathOf(data)) then SW_INVALID_PATH
    else SW_OK
  }

  /** Opens the review, or answers why there is none. */
  function Present(s: State, kind: Pending, v: Verdict): Next {
    match v
    case Refused(sw) => Next(s, Answer(sw))
    case Rows(rows) => Next(s.(pending := kind), ReviewOf(kind, rows))
  }

  /** The threefold hash of a transaction. */
  function TxHash(env: Env, raw: seq<byte>): seq<byte> {
    env.sha(env.sha(env.sha(raw)))
  }

  /** ui_display_transaction. */
  function UiTransaction(env: Env, s: State, o: Outcome): Next {
    if s.ctx.req != ConfirmTransaction || s.ctx.phase != Parsed then
      Next(s.(ctx := s.ctx.(phase := NoPhase)), Answer(SW_BAD_STATE))
    else Present(s, TxPending, TxReview(env, o, s.ctx.path))
  }

  /** handler_hash_tx_and_display_tx. */
  function HashAndDisplay(env: Env, s: State, raw: seq<byte>, o: Outcome, hashOk: bool): Next {
    if !hashOk then Next(s, Answer(SW_HASH_FAIL))
    else UiTransaction(env, s.(ctx := s.ctx.(phase := Parsed, union := TxInfo(raw, TxHash(env, raw)))), o)
  }

  /** handler_sign_tx. */
  function SignTx(env: Env, s: State, data: seq<byte>, chunk: byte, more: bool, hashOk: bool): Next {
    if chunk == 0 then Next(Reset(s, ConfirmTransaction, PathOf(data)), Answer(PathAnswer(data)))
    else if s.ctx.req != ConfirmTransaction then Next(s, Answer(SW_BAD_STATE))
    else
      match s.ctx.union
      case TxInfo(raw, hash) =>
        if |raw| + |data| > env.t.maxTx then Next(s, Answer(SW_WRONG_TX_LENGTH))
        else
          var raw' := raw + data;
          var s' := s.(ctx := s.ctx.(union := TxInfo(raw', hash)));
          if more then Next(s', Answer(SW_OK))
          else
            var o := Deserialize(env.t, raw');
            if o.Accepted? || (o.Undefined? && s.blind) then HashAndDisplay(env, s', raw', o, hashOk)
            else Next(s', Answer(SW_TX_PARSING_FAIL))
      case _ => Next(s, Wild)
  }

  /** 0x19, then "Ontology Signed Message:" and a line feed. */
  const SIGN_MAGIC: seq<byte> :=
    [0x19, 0x4f, 0x6e, 0x74, 0x6f, 0x6c, 0x6f, 0x67, 0x79, 0x20, 0x53, 0x69, 0x67, 0x6e, 0x65, 0x64,
     0x20, 0x4d, 0x65, 0x73, 0x73, 0x61, 0x67, 0x65, 0x3a, 0x0a]

  function MsgHash(env: Env, raw: seq<byte>): seq<byte> {
    env.sha(SIGN_MAGIC + Ascii(Digits(|raw|)) + raw)
  }

  /** ui_display_message. */
  function UiMessage(env: Env, s: State, raw: seq<byte>): Next {
    if s.ctx.req != ConfirmMessage || s.ctx.phase != Parsed then
      Next(s.(ctx := s.ctx.(phase := NoPhase)), Answer(SW_BAD_STATE))
    else Present(s, MsgPending, MessageReview(env, raw, s.ctx.path))
  }

  /** handler_sign_message. */
  function SignMessage(env: Env, s: State, data: seq<byte>, chunk: byte, more: bool, hashOk: bool): Next {
    if chunk == 0 then Next(Reset(s, ConfirmMessage, PathOf(data)), Answer(PathAnswer(data)))
    else if s.ctx.req != ConfirmMessage then Next(s, Answer(SW_BAD_STATE))
    else
      match s.ctx.union
      case MsgInfo(raw, hash) =>
        if |raw| + |data| > MAX_MESSAGE_LEN then Next(s, Answer(SW_WRONG_DATA_LENGTH))
        else
          var raw' := raw + data;
          var s' := s.(ctx := s.ctx.(union := MsgInfo(raw', hash)));
          if more then Next(s', Answer(SW_OK))
          else
            var s'' := s'.(ctx := s'.ctx.(phase := Parsed));
            if !hashOk then Next(s'', Answer(SW_HASH_FAIL))
            else UiMessage(env, s''.(ctx := s''.ctx.(union := MsgInfo(raw', MsgHash(env, raw')))), raw')
      case _ => Next(s, Wild)
  }

  /** handler_get_public_key with ui_display_address. */
  function GetPublicKey(env: Env, s: State, data: seq<byte>, display: bool): Next {
    var s' := Reset(s, ConfirmAddress, PathOf(data));
    if PathAnswer(data) != SW_OK then Next(s', Answer(PathAnswer(data)))
    else
      match env.key(PathOf(data))
      case KeyError(sw) => Next(s', Answer(sw))
      case Key(k) =>
        var s'' := s'.(ctx := s'.ctx.(union := PkInfo(k)));
        if !display then Next(s'', KeyData(k))
        else
          match env.addressOf(k)
          case None => Next(s'', Answer(SW_DISPLAY_ADDRESS_FAIL))
          case Some(a) => Next(s''.(pending := AddressPending), ReviewOf(AddressPending, [Shown(Address, a)]))
  }

  /** apdu_dispatcher. */
  function Dispatch(env: Env, s: State, cmd: Command, hashOk: bool): Next {
    if cmd.cla != CLA then Next(s, Answer(SW_CLA_NOT_SUPPORTED))
    else if cmd.ins == INS_GET_VERSION || cmd.ins == INS_GET_APP_NAME then
      Next(s, if cmd.p1 != 0 || cmd.p2 != 0 then Answer(SW_WRONG_P1P2) else Constant(cmd.ins))
    else if cmd.ins == INS_GET_PUBLIC_KEY then
      if cmd.p1 > 1 || cmd.p2 > 0 then Next(s, Answer(SW_WRONG_P1P2))
      else if cmd.data == [] then Next(s, Answer(SW_WRONG_DATA_LENGTH))
      else GetPublicKey(env, s, cmd.data, cmd.p1 == 1)
    else if cmd.ins == INS_SIGN_TX || cmd.ins == INS_SIGN_MESSAGE then
      if (cmd.p1 == P1_START && cmd.p2 != P2_MORE) || cmd.p1 > P1_MAX || (cmd.p2 != P2_LAST && cmd.p2 != P2_MORE) then
        Next(s, Answer(SW_WRONG_P1P2))
      else if cmd.data == [] then Next(s, Answer(SW_WRONG_DATA_LENGTH))
      else if cmd.ins == INS_SIGN_TX then SignTx(env, s, cmd.data, cmd.p1, cmd.p2 == P2_MORE, hashOk)
      else SignMessage(env, s, cmd.data, cmd.p1, cmd.p2 == P2_MORE, hashOk)
    else Next(s, Answer(SW_INS_NOT_SUPPORTED))
  }

  // ----- decisions

  /** The state after a decision about something to sign. */
  function Decide(s: State, kind: Pending, hash: seq<byte>, confirm: bool, signOk: bool): Next {
    var closed := s.(pending := NoReview);
    if confirm && signOk then
      Next(closed.(ctx := s.ctx.(phase := Approved)), Signed(kind, s.ctx.path, hash))
    else
      Next(closed.(ctx := s.ctx.(phase := NoPhase)), Answer(if confirm then SW_SIGNATURE_FAIL else SW_DENY))
  }

  /** validate_pubkey, validate_transaction and validate_personal_msg. */
  function Validate(s: State, confirm: bool, signOk: bool): Next {
    match s.pending
    case NoReview => Next(s, Silent)
    case AddressPending =>
      Next(s.(pending := NoReview),
           if !confirm then Answer(SW_DENY) else if s.ctx.union.PkInfo? then KeyData(s.ctx.union.key) else Wild)
    case TxPending =>
      if s.ctx.union.TxInfo? then Decide(s, TxPending, s.ctx.union.hash, confirm, signOk) else Next(s, Wild)
    case MsgPending =>
      if s.ctx.union.MsgInfo? then Decide(s, MsgPending, s.ctx.union.hash, confirm, signOk) else Next(s, Wild)
  }

  function Step(env: Env, s: State, e: Event): Next {
    match e
    case Apdu(cmd, hashOk) => Dispatch(env, s, cmd, hashOk)
    case Choice(confirm, signOk) => Validate(s, confirm, signOk)
    case Setting(blind) => Next(s.(blind := blind), Silent)
  }

  // ----- runs

  datatype Exchange = Exchange(event: Event, output: Output)

  /** The state a run ends in; None if `tr` is no run from the start with setting `blind`. */
  function Run(env: Env, blind: bool, tr: seq<Exchange>): Option<State> {
    if tr == [] then Some(State(ZERO_CONTEXT, NoReview, blind))
    else
      var before, last := Run(env, blind, tr[..|tr| - 1]), tr[|tr| - 1];
      if before.None? || !Enabled(before.value, last.event) then None
      else
        var n := Step(env, before.value, last.event);
        if n.output == last.output then Some(n.state) else None
  }
}
