/**
 Safety over whole runs. `HistoryOf` is what a host can reconstruct from the exchange alone:
 which session is open, with which first chunk, and the concatenation of the chunks that were
 taken. Every run's context is exactly that, and every signature is over exactly those bytes.
 */
module SessionLaws {
  import opened Options
  import opened Bytes
  import opened Contracts
  import opened Decimal
  import opened TxTypes
  import opened ParserSpec
  import opened ParserLaws
  import opened DisplayPlan
  import opened Review
  import opened Session
  import opened PathLaws

  // ----- the exchange as seen from outside

  datatype History =
    | Idle
    | KeySession(first: seq<byte>)
    | TxSession(first: seq<byte>, answer: nat, bytes: seq<byte>)
    | MsgSession(first: seq<byte>, answer: nat, bytes: seq<byte>)

  predicate Opens(e: Event, ins: byte) {
    e.Apdu? && e.cmd.cla == CLA && e.cmd.ins == ins && e.cmd.p1 == P1_START && e.cmd.p2 == P2_MORE && e.cmd.data != []
  }

  predicate AsksKey(e: Event) {
    e.Apdu? && e.cmd.cla == CLA && e.cmd.ins == INS_GET_PUBLIC_KEY && e.cmd.p1 <= 1 && e.cmd.p2 == 0 && e.cmd.data != []
  }

  /** A later chunk that was not turned away. */
  predicate Taken(en: Exchange, ins: byte) {
    && en.event.Apdu? && en.event.cmd.cla == CLA && en.event.cmd.ins == ins && en.event.cmd.p1 != P1_START
    && en.output != Answer(SW_BAD_STATE) && en.output != Answer(SW_WRONG_P1P2)
    && en.output != Answer(SW_WRONG_DATA_LENGTH) && en.output != Answer(SW_WRONG_TX_LENGTH)
  }

  function Extend(h: History, en: Exchange): History {
    if Opens(en.event, INS_SIGN_TX) then TxSession(en.event.cmd.data, if en.output.Answer? then en.output.sw else 0, [])
    else if Opens(en.event, INS_SIGN_MESSAGE) then
      MsgSession(en.event.cmd.data, if en.output.Answer? then en.output.sw else 0, [])
    else if AsksKey(en.event) then KeySession(en.event.cmd.data)
    else if h.TxSession? && Taken(en, INS_SIGN_TX) then TxSession(h.first, h.answer, h.bytes + en.event.cmd.data)
    else if h.MsgSession? && Taken(en, INS_SIGN_MESSAGE) then MsgSession(h.first, h.answer, h.bytes + en.event.cmd.data)
    else h
  }

  function HistoryOf(tr: seq<Exchange>): History {
    if tr == [] then Idle else Extend(HistoryOf(tr[..|tr| - 1]), tr[|tr| - 1])
  }

  /** The blind-signing setting after a run that began with `blind`. */
  function BlindAfter(blind: bool, tr: seq<Exchange>): bool {
    if tr == [] then blind
    else
      var e := tr[|tr| - 1].event;
      if e.Setting? then e.blind else BlindAfter(blind, tr[..|tr| - 1])
  }

  // ----- the context is the history

  /** The union holds the variant of the request, and in it what the history says. */
  predicate Matches(env: Env, ctx: Context, h: History) {
    match h
    case Idle => ctx == ZERO_CONTEXT
    case KeySession(first) => ctx.req == ConfirmAddress && ctx.union.PkInfo? && ctx.path == PathOf(first)
    case TxSession(first, answer, bytes) =>
      && ctx.req == ConfirmTransaction && ctx.union.TxInfo? && ctx.path == PathOf(first)
      && ctx.union.raw == bytes && |bytes| <= env.t.maxTx && answer == PathAnswer(first)
    case MsgSession(first, answer, bytes) =>
      && ctx.req == ConfirmMessage && ctx.union.MsgInfo? && ctx.path == PathOf(first)
      && ctx.union.raw == bytes && |bytes| <= MAX_MESSAGE_LEN && answer == PathAnswer(first)
  }

  /** A transaction that may be reviewed at all: accepted, or unknown while blind signing is on. */
  predicate Reviewable(t: Target, raw: seq<byte>, blind: bool) {
    var o := Deserialize(t, raw);
    o.Accepted? || (o.Undefined? && blind)
  }

  /** What an open review means: it was the last output, and shows the bytes whose hash is kept. */
  predicate PendingMeans(env: Env, s: State, h: History, last: Output) {
    match s.pending
    case NoReview => true
    case AddressPending =>
      && h.KeySession? && PathAnswer(h.first) == SW_OK && env.key(PathOf(h.first)).Key?
      && s.ctx.union == PkInfo(env.key(PathOf(h.first)).bytes) && SignerOf(env, PathOf(h.first)).Some?
      && last == ReviewOf(AddressPending, [Shown(Address, SignerOf(env, PathOf(h.first)).value)])
    case TxPending =>
      && h.TxSession? && s.ctx.phase == Parsed && s.ctx.union == TxInfo(h.bytes, TxHash(env, h.bytes))
      && Reviewable(env.t, h.bytes, s.blind)
      && TxReview(env, Deserialize(env.t, h.bytes), s.ctx.path).Rows?
      && last == ReviewOf(TxPending, TxReview(env, Deserialize(env.t, h.bytes), s.ctx.path).rows)
    case MsgPending =>
      && h.MsgSession? && s.ctx.phase == Parsed && s.ctx.union == MsgInfo(h.bytes, MsgHash(env, h.bytes))
      && MessageReview(env, h.bytes, s.ctx.path).Rows?
      && last == ReviewOf(MsgPending, MessageReview(env, h.bytes, s.ctx.path).rows)
  }

  /** What an output says about the event that caused it and the state it was given in. */
  predicate OutputMeans(env: Env, s: State, h: History, en: Exchange) {
    match en.output
    case Wild => false
    case ReviewOf(kind, _) => kind == TxPending ==> Taken(en, INS_SIGN_TX) && en.event.cmd.data != []
    case Signed(kind, path, hash) =>
      && en.event == Choice(true, true) && kind == s.pending && path == s.ctx.path
      && ((kind == TxPending && s.ctx.union.TxInfo? && hash == s.ctx.union.hash)
          || (kind == MsgPending && s.ctx.union.MsgInfo? && hash == s.ctx.union.hash))
    case _ => true
  }

  /** One step keeps the context equal to the history, and its output is justified. */
  predicate Kept(env: Env, s: State, h: History, e: Event) {
    var n := Step(env, s, e);
    var h' := Extend(h, Exchange(e, n.output));
    && Matches(env, n.state.ctx, h')
    && PendingMeans(env, n.state, h', n.output)
    && OutputMeans(env, s, h, Exchange(e, n.output))
    && n.state.blind == (if e.Setting? then e.blind else s.blind)
    && (n.output.ReviewOf? ==> n.state.pending == n.output.kind)
  }

  predicate RefusalCode(v: Verdict) {
    v.Refused? ==>
      v.sw == SW_DISPLAY_ADDRESS_FAIL || v.sw == SW_INVALID_TRANSACTION || v.sw == SW_PERSONAL_MSG_PARSING_FAIL
  }

  /** A refused review is never mistaken for a chunk that was turned away. */
  lemma Refusals(env: Env, p: Path)
    ensures forall o :: RefusalCode(TxReview(env, o, p))
    ensures forall msg :: RefusalCode(MessageReview(env, msg, p))
  {
  }

  lemma KeyStep(env: Env, s: State, h: History, cmd: Command, hashOk: bool)
    requires Matches(env, s.ctx, h) && s.pending == NoReview && AsksKey(Apdu(cmd, hashOk))
    ensures Kept(env, s, h, Apdu(cmd, hashOk))
  {
    hide PathOf, PathComplete, ValidPrefix;
  }

  lemma TxStep(env: Env, s: State, h: History, cmd: Command, hashOk: bool)
    requires Matches(env, s.ctx, h) && s.pending == NoReview && cmd.cla == CLA && cmd.ins == INS_SIGN_TX
    ensures Kept(env, s, h, Apdu(cmd, hashOk))
  {
    Refusals(env, s.ctx.path);
    hide PathOf, PathComplete, ValidPrefix, Deserialize, TxReview;
  }

  lemma MsgStep(env: Env, s: State, h: History, cmd: Command, hashOk: bool)
    requires Matches(env, s.ctx, h) && s.pending == NoReview && cmd.cla == CLA && cmd.ins == INS_SIGN_MESSAGE
    ensures Kept(env, s, h, Apdu(cmd, hashOk))
  {
    Refusals(env, s.ctx.path);
    hide PathOf, PathComplete, ValidPrefix, MessageReview;
  }

  lemma OtherStep(env: Env, s: State, h: History, cmd: Command, hashOk: bool)
    requires Matches(env, s.ctx, h) && s.pending == NoReview
    requires cmd.cla != CLA || (cmd.ins != INS_SIGN_TX && cmd.ins != INS_SIGN_MESSAGE && !AsksKey(Apdu(cmd, hashOk)))
    ensures Kept(env, s, h, Apdu(cmd, hashOk))
  {
    hide PathOf, PathComplete, ValidPrefix, MessageReview, TxReview;
  }

  lemma ChoiceStep(env: Env, s: State, h: History, last: Output, confirm: bool, signOk: bool)
    requires Matches(env, s.ctx, h) && s.pending != NoReview && PendingMeans(env, s, h, last)
    ensures Kept(env, s, h, Choice(confirm, signOk))
  {
    hide PathOf, PathComplete, ValidPrefix, MessageReview, TxReview;
  }

  lemma SettingStep(env: Env, s: State, h: History, blind: bool)
    requires Matches(env, s.ctx, h) && s.pending == NoReview
    ensures Kept(env, s, h, Setting(blind))
  {
    hide PathOf, PathComplete, ValidPrefix, MessageReview, TxReview;
  }

  lemma StepKeeps(env: Env, s: State, h: History, last: Output, e: Event)
    requires Matches(env, s.ctx, h) && PendingMeans(env, s, h, last) && Enabled(s, e)
    ensures Kept(env, s, h, e)
  {
    hide Kept, Matches, PendingMeans, AsksKey;
    match e
    case Apdu(cmd, hashOk) =>
      if cmd.cla == CLA && cmd.ins == INS_SIGN_TX {
        TxStep(env, s, h, cmd, hashOk);
      } else if cmd.cla == CLA && cmd.ins == INS_SIGN_MESSAGE {
        MsgStep(env, s, h, cmd, hashOk);
      } else if AsksKey(e) {
        KeyStep(env, s, h, cmd, hashOk);
      } else {
        OtherStep(env, s, h, cmd, hashOk);
      }
    case Choice(confirm, signOk) => ChoiceStep(env, s, h, last, confirm, signOk);
    case Setting(blind) => SettingStep(env, s, h, blind);
  }

  // ----- over whole runs

  function LastOutput(tr: seq<Exchange>): Output {
    if tr == [] then Silent else tr[|tr| - 1].output
  }

  /** In every run, the union holds the variant of the last instruction that reset it, with exactly
      the chunks taken since, within its array; and an open review shows what is stored. */
  lemma {:induction false} ContextIsHistory(env: Env, blind: bool, tr: seq<Exchange>)
    requires Run(env, blind, tr).Some?
    ensures var s, h := Run(env, blind, tr).value, HistoryOf(tr);
            && Matches(env, s.ctx, h)
            && PendingMeans(env, s, h, LastOutput(tr))
            && s.blind == BlindAfter(blind, tr)
  {
    hide Step, Matches, Extend;
    if tr == [] {
      StartMatches(env, blind);
    } else {
      var before := tr[..|tr| - 1];
      ContextIsHistory(env, blind, before);
      hide PendingMeans;
      StepKeeps(env, Run(env, blind, before).value, HistoryOf(before), LastOutput(before), tr[|tr| - 1].event);
    }
  }

  lemma StartMatches(env: Env, blind: bool)
    ensures Matches(env, ZERO_CONTEXT, Idle) && PendingMeans(env, State(ZERO_CONTEXT, NoReview, blind), Idle, Silent)
  {
  }

  lemma {:induction false} RunPrefix(env: Env, blind: bool, tr: seq<Exchange>, i: nat)
    requires Run(env, blind, tr).Some? && i <= |tr|
    ensures Run(env, blind, tr[..i]).Some?
    decreases |tr|
  {
    hide Step;
    if i < |tr| {
      RunPrefix(env, blind, tr[..|tr| - 1], i);
      assert tr[..|tr| - 1][..i] == tr[..i];
    } else {
      assert tr[..i] == tr;
    }
  }

  /** Exchange `i` of a run is a step from the state before it. */
  lemma StepAt(env: Env, blind: bool, tr: seq<Exchange>, i: nat) returns (s: State)
    requires Run(env, blind, tr).Some? && i < |tr|
    ensures Run(env, blind, tr[..i]) == Some(s) && Enabled(s, tr[i].event)
    ensures Step(env, s, tr[i].event).output == tr[i].output
    ensures Run(env, blind, tr[..i + 1]) == Some(Step(env, s, tr[i].event).state)
    ensures var h := HistoryOf(tr[..i]);
            && Matches(env, s.ctx, h) && PendingMeans(env, s, h, LastOutput(tr[..i])) && Kept(env, s, h, tr[i].event)
            && s.blind == BlindAfter(blind, tr[..i]) && HistoryOf(tr[..i + 1]) == Extend(h, tr[i])
  {
    hide Step, Matches, Extend, PendingMeans, Kept;
    RunPrefix(env, blind, tr, i + 1);
    RunPrefix(env, blind, tr, i);
    assert tr[..i + 1][..i] == tr[..i];
    s := Run(env, blind, tr[..i]).value;
    ContextIsHistory(env, blind, tr[..i]);
    StepKeeps(env, s, HistoryOf(tr[..i]), LastOutput(tr[..i]), tr[i].event);
  }

  /** No run ever touches a variant of the union that is not there. */
  lemma UnionDiscipline(env: Env, blind: bool, tr: seq<Exchange>, i: nat)
    requires Run(env, blind, tr).Some? && i < |tr|
    ensures tr[i].output != Wild
  {
    var s := StepAt(env, blind, tr, i);
  }

  /** The session open at exchange `i` answered its first chunk with 9000 exactly if that starts with a
      printed path of the app. */
  ghost predicate PathAnswered(first: seq<byte>, answer: nat) {
    answer == 0x9000 <==> HasAppPath(first)
  }

  /** What is signed is what was reviewed: the signature at `i` answers a confirmed review, shown
      directly before, of exactly the chunks taken since the latest first chunk; it is over their
      threefold hash; and they were accepted, or unknown with blind signing on. */
  lemma SignedIsReviewed(env: Env, blind: bool, tr: seq<Exchange>, i: nat)
    requires Run(env, blind, tr).Some? && i < |tr| && tr[i].output.Signed? && tr[i].output.kind == TxPending
    ensures i > 0 && tr[i].event == Choice(true, true)
    ensures var h := HistoryOf(tr[..i]);
            && h.TxSession? && PathAnswered(h.first, h.answer)
            && tr[i].output == Signed(TxPending, PathOf(h.first), env.sha(env.sha(env.sha(h.bytes))))
            && Reviewable(env.t, h.bytes, BlindAfter(blind, tr[..i]))
            && var v := TxReview(env, Deserialize(env.t, h.bytes), PathOf(h.first));
               v.Rows? && tr[i - 1].output == ReviewOf(TxPending, v.rows)
  {
    hide Deserialize, TxReview, PathOf, PathComplete, ValidPrefix, Step, HasAppPath, PathAnswer;
    var s := StepAt(env, blind, tr, i);
    PathAnswerOk(HistoryOf(tr[..i]).first);
  }

  /** The text hashed for a message whose length has the numeral `d`. */
  function Preimage(d: string, msg: seq<byte>): seq<byte> {
    [0x19] + Ascii("Ontology Signed Message:") + [0x0a] + Ascii(d) + msg
  }

  lemma MsgHashMeans(env: Env, msg: seq<byte>) returns (d: string)
    ensures Numeral(d, |msg|) && MsgHash(env, msg) == env.sha(Preimage(d, msg))
  {
    d := Digits(|msg|);
    DigitsRead(|msg|);
    var text := Ascii("Ontology Signed Message:");
    assert SIGN_MAGIC == [0x19] + text + [0x0a];
    hide Ascii;
    assert SIGN_MAGIC + Ascii(d) + msg == Preimage(d, msg);
  }

  /** The same for messages, whose hash covers the magic text, the decimal length and the message. */
  lemma SignedMessageIsReviewed(env: Env, blind: bool, tr: seq<Exchange>, i: nat) returns (d: string)
    requires Run(env, blind, tr).Some? && i < |tr| && tr[i].output.Signed? && tr[i].output.kind == MsgPending
    ensures i > 0 && tr[i].event == Choice(true, true)
    ensures var h := HistoryOf(tr[..i]);
            && h.MsgSession? && PathAnswered(h.first, h.answer)
            && Numeral(d, |h.bytes|)
            && tr[i].output == Signed(MsgPending, PathOf(h.first), env.sha(Preimage(d, h.bytes)))
            && var v := MessageReview(env, h.bytes, PathOf(h.first));
               v.Rows? && tr[i - 1].output == ReviewOf(MsgPending, v.rows)
  {
    hide MessageReview, PathOf, PathComplete, ValidPrefix, Step, MsgHash, Preimage, HasAppPath, PathAnswer;
    var s := StepAt(env, blind, tr, i);
    PathAnswerOk(HistoryOf(tr[..i]).first);
    d := MsgHashMeans(env, HistoryOf(tr[..i]).bytes);
  }

  /** A signature is one or the other. */
  lemma SignatureKinds(env: Env, blind: bool, tr: seq<Exchange>, i: nat)
    requires Run(env, blind, tr).Some? && i < |tr| && tr[i].output.Signed?
    ensures tr[i].output.kind == TxPending || tr[i].output.kind == MsgPending
  {
    hide Step;
    var s := StepAt(env, blind, tr, i);
  }

  // ----- one review per session

  predicate ReviewsTx(o: Output) {
    o.ReviewOf? && o.kind == TxPending
  }

  /** A transaction review is of recognised bytes, the last of which have just been taken. */
  lemma ReviewAt(env: Env, blind: bool, tr: seq<Exchange>, i: nat)
    requires Run(env, blind, tr).Some? && i < |tr| && ReviewsTx(tr[i].output)
    ensures var h, h' := HistoryOf(tr[..i]), HistoryOf(tr[..i + 1]);
            && h.TxSession? && h'.TxSession? && Recognised(env.t, h'.bytes)
            && h.first == h'.first && h.bytes < h'.bytes
  {
    hide Deserialize, TxReview, PathOf, PathComplete, ValidPrefix, Step;
    var s := StepAt(env, blind, tr, i);
    var h := HistoryOf(tr[..i]);
    assert Taken(tr[i], INS_SIGN_TX);
  }

  predicate OpensWithin(tr: seq<Exchange>, i: nat, j: nat) {
    exists k :: i < k < j && k < |tr| && Opens(tr[k].event, INS_SIGN_TX)
  }

  /** Without a new first chunk a session only grows. */
  lemma {:induction false} SessionGrows(tr: seq<Exchange>, i: nat, j: nat)
    requires i < j <= |tr| && HistoryOf(tr[..i + 1]).TxSession? && !OpensWithin(tr, i, j)
    ensures var h, h' := HistoryOf(tr[..i + 1]), HistoryOf(tr[..j]); h'.TxSession? ==> h.bytes <= h'.bytes
    decreases j
  {
    if j > i + 1 {
      SessionGrows(tr, i, j - 1);
      assert tr[..j][..j - 1] == tr[..j - 1];
      assert !Opens(tr[j - 1].event, INS_SIGN_TX);
      StillOpen(tr, i, j - 1);
    }
  }

  /** A transaction session that is open now was opened by a first chunk, or before `i`. */
  lemma {:induction false} StillOpen(tr: seq<Exchange>, i: nat, j: nat)
    requires i < j <= |tr| && !OpensWithin(tr, i, j)
    ensures HistoryOf(tr[..j]).TxSession? ==> HistoryOf(tr[..i + 1]).TxSession?
    decreases j
  {
    if j > i + 1 {
      assert tr[..j][..j - 1] == tr[..j - 1];
      assert !Opens(tr[j - 1].event, INS_SIGN_TX);
      StillOpen(tr, i, j - 1);
    }
  }

  /** Between two transaction reviews there is a new first chunk: however the host splits and
      repeats chunks, one session has at most one review. */
  lemma OneReviewPerSession(env: Env, blind: bool, tr: seq<Exchange>, i: nat, j: nat)
    requires Run(env, blind, tr).Some? && i < j < |tr| && ReviewsTx(tr[i].output) && ReviewsTx(tr[j].output)
    ensures OpensWithin(tr, i, j)
  {
    hide Run, Recognised, HistoryOf;
    ReviewAt(env, blind, tr, i);
    ReviewAt(env, blind, tr, j);
    if !OpensWithin(tr, i, j) {
      SessionGrows(tr, i, j);
      var b, c := HistoryOf(tr[..i + 1]).bytes, HistoryOf(tr[..j + 1]).bytes;
      assert b < c;
      RecognisedIsPrefixFree(env.t, b, c);
    }
  }

  lemma ReviewedBefore(env: Env, blind: bool, tr: seq<Exchange>, i: nat)
    requires Run(env, blind, tr).Some? && i < |tr| && tr[i].output.Signed? && tr[i].output.kind == TxPending
    ensures i > 0 && tr[i].event.Choice? && ReviewsTx(tr[i - 1].output)
  {
    hide Run, Deserialize, TxReview, PathOf, HistoryOf, TxHash, Reviewable, PathAnswered;
    SignedIsReviewed(env, blind, tr, i);
  }

  /** And at most one signature. */
  lemma OneSignaturePerSession(env: Env, blind: bool, tr: seq<Exchange>, i: nat, j: nat)
    requires Run(env, blind, tr).Some? && i < j < |tr|
    requires tr[i].output.Signed? && tr[i].output.kind == TxPending && tr[j].output.Signed? &&
             tr[j].output.kind == TxPending
    ensures OpensWithin(tr, i, j)
  {
    hide Run, HistoryOf;
    ReviewedBefore(env, blind, tr, i);
    ReviewedBefore(env, blind, tr, j);
    OneReviewPerSession(env, blind, tr, i - 1, j - 1);
    var k :| i - 1 < k < j - 1 && k < |tr| && Opens(tr[k].event, INS_SIGN_TX);
    assert k != i;
  }

  // ----- what does not change

  predicate TurnedAway(sw: nat) {
    || sw == SW_CLA_NOT_SUPPORTED || sw == SW_INS_NOT_SUPPORTED || sw == SW_WRONG_P1P2
    || sw == SW_BAD_STATE || sw == SW_WRONG_TX_LENGTH
  }

  /** The codes a key derivation may fail with are not among the app's own. */
  ghost predicate Honest(env: Env) {
    forall p :: env.key(p).KeyError? ==> !TurnedAway(env.key(p).sw)
  }

  /** A command that is turned away leaves the whole state as it was; in particular `SW_BAD_STATE`
      never comes from the guards of the reviews, which would have cleared the phase. */
  lemma TurnedAwayChangesNothing(env: Env, blind: bool, tr: seq<Exchange>, i: nat)
    requires Run(env, blind, tr).Some? && i < |tr| && Honest(env)
    requires tr[i].output.Answer? && TurnedAway(tr[i].output.sw)
    ensures Run(env, blind, tr[..i]).Some? && Run(env, blind, tr[..i + 1]) == Run(env, blind, tr[..i])
  {
    hide Run, HistoryOf, BlindAfter;
    var s := StepAt(env, blind, tr, i);
    StepTurnedAway(env, s, tr[i].event);
  }

  lemma StepTurnedAway(env: Env, s: State, e: Event)
    requires Honest(env) && Enabled(s, e)
    ensures var n := Step(env, s, e); n.output.Answer? && TurnedAway(n.output.sw) ==> n.state == s
  {
    hide PathOf, PathComplete, ValidPrefix, Deserialize, TxReview, MessageReview, TxHash, MsgHash;
    Refusals(env, s.ctx.path);
    match e
    case Apdu(cmd, hashOk) =>
      hide Validate;
      if cmd.ins == INS_GET_PUBLIC_KEY {
        hide SignTx, SignMessage;
      }
    case _ => hide Dispatch;
  }

  // ----- keys

  /** A key that is handed out after a review is the one whose address was shown. */
  lemma SharedKeyIsReviewed(env: Env, blind: bool, tr: seq<Exchange>, i: nat)
    requires Run(env, blind, tr).Some? && i < |tr| && tr[i].event.Choice? && tr[i].output.KeyData?
    ensures i > 0 && tr[i].event.confirm
    ensures var h := HistoryOf(tr[..i]);
            && h.KeySession? && env.key(PathOf(h.first)) == Key(tr[i].output.key)
            && SignerOf(env, PathOf(h.first)).Some?
            && tr[i - 1].output == ReviewOf(AddressPending, [Shown(Address, SignerOf(env, PathOf(h.first)).value)])
  {
    hide Run, PathOf, PathComplete, ValidPrefix, TxReview, MessageReview;
    var s := StepAt(env, blind, tr, i);
  }
}
