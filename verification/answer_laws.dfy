/**
 What the app answers in every run, with the numbers of the protocol written out, and from what a host
 can know: the commands so far, and which bytes are a path, a transaction or a call to be signed blindly.
 */
module AnswerLaws {
  import opened Bytes
  import opened TxTypes
  import G = Grammar
  import opened ParserSpec
  import opened Acceptance
  import opened BlindSigning
  import opened MessageText
  import opened DisplayPlan
  import opened DisplayLaws
  import opened Review
  import opened Session
  import opened SessionLaws
  import opened PathLaws
  import opened SigningLaws

  // ----- what the bytes are

  ghost predicate IsTransaction(t: Target, b: seq<byte>) {
    exists tx :: G.TxOk(t, tx) && b == G.PrintTx(t, tx)
  }

  ghost predicate IsUnknown(t: Target, b: seq<byte>) {
    exists u :: UnknownOk(t, u) && b == PrintUnknown(t, u)
  }

  lemma Outcomes(t: Target, b: seq<byte>)
    ensures Deserialize(t, b).Accepted? <==> IsTransaction(t, b)
    ensures Deserialize(t, b).Undefined? <==> IsUnknown(t, b)
  {
    hide Deserialize, G.TxOk, G.PrintTx, UnknownOk, PrintUnknown;
    BlindExactlyUnknown(t, b);
    if Deserialize(t, b).Accepted? {
      AcceptsExactlyThePrinted(t, b, Deserialize(t, b).tx);
    }
    if tx :| G.TxOk(t, tx) && b == G.PrintTx(t, tx) {
      AcceptsExactlyThePrinted(t, b, tx);
    }
  }

  ghost predicate HasPath(data: seq<byte>) {
    exists ws :: PathWords(ws) && PrintPath(ws) <= data
  }

  /** The answer to a first chunk: a path of the app, another path, or none. */
  ghost function PathCode(data: seq<byte>): nat {
    if HasAppPath(data) then 0x9000 else if HasPath(data) then 0xb00b else 0x6a87
  }

  lemma PathCodes(data: seq<byte>)
    ensures PathAnswer(data) == PathCode(data)
  {
    hide PrintPath, PathWords, PathAnswer, AppPath;
    PathAnswerOk(data);
    if ws :| PathWords(ws) && PrintPath(ws) <= data {
      PrintedPathAnswer(ws, data[|PrintPath(ws)|..]);
      assert PrintPath(ws) + data[|PrintPath(ws)|..] == data;
    } else {
      OtherPathAnswer(data);
    }
  }

  // ----- keys

  /** The key at the path of `data`, after its address was shown if that is asked for. */
  ghost predicate KeyAnswer(env: Env, data: seq<byte>, display: bool, out: Output) {
    if !HasAppPath(data) then out == Answer(PathCode(data))
    else
      match env.key(PathOf(data))
      case KeyError(sw) => out == Answer(sw)
      case Key(k) =>
        if !display then out == KeyData(k)
        else if env.addressOf(k).None? then out == Answer(0xb002)
        else out == ReviewOf(AddressPending, [Shown(Address, env.addressOf(k).value)])
  }

  lemma KeyStepAnswer(env: Env, s: State, data: seq<byte>, display: bool)
    ensures KeyAnswer(env, data, display, GetPublicKey(env, s, data, display).output)
  {
    hide PathOf, PathAnswer, HasAppPath, HasPath;
    PathCodes(data);
    PathAnswerOk(data);
  }

  // ----- every command

  /** Numbers of a chunk: the first is 0 with 0x80, the later ones 1 to 27 with 0x80, or 0 at the end. */
  predicate ChunkNumbers(p1: int, p2: int) {
    (p1 == 0 && p2 == 0x80) || (1 <= p1 <= 27 && (p2 == 0x80 || p2 == 0))
  }

  /** The answers that depend on the command alone; true for a later chunk. */
  ghost predicate CommandAnswer(env: Env, cmd: Command, out: Output) {
    if cmd.cla != 0x80 then out == Answer(0x6e00)
    else if cmd.ins == 3 || cmd.ins == 5 then
      out == if cmd.p1 == 0 && cmd.p2 == 0 then Constant(cmd.ins) else Answer(0x6a86)
    else if cmd.ins == 4 then
      if cmd.p1 > 1 || cmd.p2 > 0 then out == Answer(0x6a86)
      else if cmd.data == [] then out == Answer(0x6a87)
      else KeyAnswer(env, cmd.data, cmd.p1 == 1, out)
    else if cmd.ins == 2 || cmd.ins == 7 then
      if !ChunkNumbers(cmd.p1, cmd.p2) then out == Answer(0x6a86)
      else if cmd.data == [] then out == Answer(0x6a87)
      else cmd.p1 == 0 ==> out == Answer(PathCode(cmd.data))
    else out == Answer(0x6d00)
  }

  lemma CommandStep(env: Env, s: State, cmd: Command, hashOk: bool)
    ensures CommandAnswer(env, cmd, Dispatch(env, s, cmd, hashOk).output)
  {
    hide PathOf, PathAnswer, PathCode, KeyAnswer, GetPublicKey, Deserialize, HashAndDisplay, UiMessage;
    PathCodes(cmd.data);
    KeyStepAnswer(env, s, cmd.data, cmd.p1 == 1);
  }

  /** Every command of every run. */
  lemma CommandAnswered(env: Env, blind: bool, tr: seq<Exchange>, i: nat)
    requires Run(env, blind, tr).Some? && i < |tr| && tr[i].event.Apdu?
    ensures CommandAnswer(env, tr[i].event.cmd, tr[i].output)
  {
    hide CommandAnswer, HistoryOf, Run, Dispatch;
    var s := StepAt(env, blind, tr, i);
    CommandStep(env, s, tr[i].event.cmd, tr[i].event.hashOk);
  }

  /** A key given in answer to a command was asked for without display, and is the one at the path that
      came with the request, a path of the app. */
  lemma KeyIsAskedFor(env: Env, blind: bool, tr: seq<Exchange>, i: nat)
    requires Run(env, blind, tr).Some? && i < |tr| && tr[i].event.Apdu? && tr[i].output.KeyData?
    ensures var cmd := tr[i].event.cmd;
            && cmd.cla == 0x80 && cmd.ins == 4 && cmd.p1 == 0 && cmd.p2 == 0
            && HasAppPath(cmd.data) && env.key(PathOf(cmd.data)) == Key(tr[i].output.key)
  {
    hide HistoryOf, Run, HasAppPath, PathOf, Dispatch, PathCode;
    CommandAnswered(env, blind, tr, i);
    var s := StepAt(env, blind, tr, i);
    OnlyAskedKeys(env, s, tr[i].event.cmd, tr[i].event.hashOk);
  }

  lemma OnlyAskedKeys(env: Env, s: State, cmd: Command, hashOk: bool)
    ensures Dispatch(env, s, cmd, hashOk).output.KeyData? ==> cmd.cla == 0x80 && cmd.ins == 4
  {
    hide PathOf, PathAnswer, GetPublicKey, Deserialize, TxReview, MessageReview, TxHash, MsgHash;
  }

  // ----- later chunks

  predicate LaterChunk(e: Event, ins: int) {
    && e.Apdu? && e.cmd.cla == 0x80 && e.cmd.ins == ins && e.cmd.p1 != 0 && ChunkNumbers(e.cmd.p1, e.cmd.p2)
    && e.cmd.data != []
  }

  /** The answer to the last chunk of a transaction whose bytes are `b` then. */
  ghost predicate LastTxAnswer(env: Env, b: seq<byte>, blind: bool, path: Path, hashOk: bool, out: Output) {
    if !IsTransaction(env.t, b) && !(blind && IsUnknown(env.t, b)) then out == Answer(0xb005)
    else if !hashOk then out == Answer(0xb006)
    else if SignerOf(env, path).None? then out == Answer(0xb002)
    else
      var signer := SignerOf(env, path).value;
      && (forall tx | G.TxOk(env.t, tx) && b == G.PrintTx(env.t, tx) :: TxAnswer(env, tx, signer, out))
      && (forall u | UnknownOk(env.t, u) && b == PrintUnknown(env.t, u) ::
            out.ReviewOf? && out.kind == TxPending && BlindReview(out.rows, u, signer))
  }

  /** A transaction is reviewed if it can be. */
  predicate TxAnswer(env: Env, tx: G.Tx, signer: string, out: Output) {
    match Reviewed(env.base58, tx)
    case None => out == Answer(0xb00a)
    case Some(shown) => out.ReviewOf? && out.kind == TxPending && Ends(out.rows, shown, tx.header, signer)
  }

  lemma LastTxStep(env: Env, s: State, b: seq<byte>, hashOk: bool)
    requires s.ctx.req == ConfirmTransaction
    requires var o := Deserialize(env.t, b); o.Accepted? || (o.Undefined? && s.blind)
    ensures LastTxAnswer(env, b, s.blind, s.ctx.path, hashOk,
                         HashAndDisplay(env, s, b, Deserialize(env.t, b), hashOk).output)
  {
    hide Deserialize, G.TxOk, G.PrintTx, UnknownOk, PrintUnknown, IsTransaction, IsUnknown, Reviewed, Closing,
      BlindRows,
      Ends, BlindReview, SignerOf, TxHash;
    Outcomes(env.t, b);
    if SignerOf(env, s.ctx.path).Some? {
      var signer := SignerOf(env, s.ctx.path).value;
      forall tx | G.TxOk(env.t, tx) && b == G.PrintTx(env.t, tx)
        ensures hashOk ==> TxAnswer(env, tx, signer, HashAndDisplay(env, s, b, Deserialize(env.t, b), hashOk).output)
      {
        AcceptsExactlyThePrinted(env.t, b, tx);
        OkHeader(env.t, tx);
        if Reviewed(env.base58, tx).Some? {
          EndsWith(Reviewed(env.base58, tx).value, tx.header, signer);
        }
      }
      forall u | UnknownOk(env.t, u) && b == PrintUnknown(env.t, u)
        ensures var out := HashAndDisplay(env, s, b, Deserialize(env.t, b), hashOk).output;
                hashOk ==> out.ReviewOf? && out.kind == TxPending && BlindReview(out.rows, u, signer)
      {
        UnknownIsUndefined(env.t, u);
        UnknownHeader(env.t, u);
        BlindRowsReviewed(u, signer);
      }
    }
  }

  /** Every later chunk of a transaction, in every run. */
  lemma TxChunkAnswered(env: Env, blind: bool, tr: seq<Exchange>, i: nat)
    requires Run(env, blind, tr).Some? && i < |tr| && LaterChunk(tr[i].event, 2)
    ensures var h, e, out := HistoryOf(tr[..i]), tr[i].event, tr[i].output;
            if !h.TxSession? then out == Answer(0xb007)
            else if |h.bytes| + |e.cmd.data| > env.t.maxTx then out == Answer(0xb004)
            else if e.cmd.p2 == 0x80 then out == Answer(0x9000)
            else LastTxAnswer(env, h.bytes + e.cmd.data, BlindAfter(blind, tr[..i]), PathOf(h.first), e.hashOk, out)
  {
    hide HistoryOf, Run, BlindAfter, PathOf, PathAnswer, Deserialize, HashAndDisplay, IsTransaction, IsUnknown, Extend;
    var s := StepAt(env, blind, tr, i);
    var h, e := HistoryOf(tr[..i]), tr[i].event;
    if h.TxSession? {
      var b := h.bytes + e.cmd.data;
      Outcomes(env.t, b);
      var o := Deserialize(env.t, b);
      if o.Accepted? || (o.Undefined? && s.blind) {
        LastTxStep(env, s.(ctx := s.ctx.(union := TxInfo(b, s.ctx.union.hash))), b, e.hashOk);
      }
      hide LastTxAnswer;
    }
  }

  /** Every later chunk of a message. */
  lemma MessageChunkAnswered(env: Env, blind: bool, tr: seq<Exchange>, i: nat)
    requires Run(env, blind, tr).Some? && i < |tr| && LaterChunk(tr[i].event, 7)
    ensures var h, e, out := HistoryOf(tr[..i]), tr[i].event, tr[i].output;
            if !h.MsgSession? then out == Answer(0xb007)
            else if |h.bytes| + |e.cmd.data| > 1024 then out == Answer(0x6a87)
            else if e.cmd.p2 == 0x80 then out == Answer(0x9000)
            else if !e.hashOk then out == Answer(0xb006)
            else if SignerOf(env, PathOf(h.first)).None? then out == Answer(0xb002)
            else
              && out.ReviewOf? && out.kind == MsgPending && |out.rows| == 2
              && out.rows[0].caption == Message && ShowsMessage(out.rows[0].text, h.bytes + e.cmd.data)
              && out.rows[1] == Shown(Signer, SignerOf(env, PathOf(h.first)).value)
  {
    hide HistoryOf, Run, BlindAfter, PathOf, PathAnswer, Visible, ShowsMessage, SignerOf, MsgHash, Extend;
    var s := StepAt(env, blind, tr, i);
    var h, e := HistoryOf(tr[..i]), tr[i].event;
    if h.MsgSession? && |h.bytes| + |e.cmd.data| <= 1024 && SignerOf(env, PathOf(h.first)).Some? {
      MessageAlwaysShown(env, h.bytes + e.cmd.data, PathOf(h.first));
    }
  }

  // ----- decisions

  /** Every decision of every run answers the review directly before it: a refusal with 6985, a signature
      that fails with b008, and otherwise a key or a signature, as was shown. */
  lemma ChoiceAnswered(env: Env, blind: bool, tr: seq<Exchange>, i: nat)
    requires Run(env, blind, tr).Some? && i < |tr| && tr[i].event.Choice?
    ensures i > 0 && tr[i - 1].output.ReviewOf?
    ensures var e, kind, out := tr[i].event, tr[i - 1].output.kind, tr[i].output;
            if !e.confirm then out == Answer(0x6985)
            else if kind == AddressPending then out.KeyData?
            else if !e.signOk then out == Answer(0xb008)
            else out.Signed? && out.kind == kind
  {
    hide HistoryOf, Run, BlindAfter, PathOf, PathAnswer, Deserialize, TxReview, MessageReview, SignerOf, MsgHash,
      TxHash,
      Extend, Kept;
    var s := StepAt(env, blind, tr, i);
  }
}
