/**
 From the host's transaction to the signature and back: any chunking leads to the same review, every
 well-formed transaction can be signed, and a signed one was shown as its syntax tree says.
 */
module SigningLaws {
  import opened Options
  import opened Bytes
  import opened TxTypes
  import opened Contracts
  import G = Grammar
  import opened ParserSpec
  import opened Acceptance
  import opened ParserLaws
  import opened BlindSigning
  import opened DisplayPlan
  import opened DisplayLaws
  import S = StakingLaws
  import opened Decimal
  import opened CaptionLaws
  import opened CompletenessLaws
  import R = MethodRows
  import opened MessageText
  import opened Review
  import opened Session
  import opened SessionLaws

  // ----- chunking

  /** One later chunk as the host numbers it. */
  datatype Piece = Piece(p1: byte, data: seq<byte>)

  predicate PiecesOk(ps: seq<Piece>) {
    ps != [] && forall k :: 0 <= k < |ps| ==> 1 <= ps[k].p1 <= P1_MAX && ps[k].data != []
  }

  function Joined(ps: seq<Piece>): seq<byte> {
    if ps == [] then [] else ps[0].data + Joined(ps[1..])
  }

  /** The chunks are sent one after the other, the last one marked as such. */
  function Feed(env: Env, s: State, ins: byte, ps: seq<Piece>, hashOk: bool): Next
    requires ps != []
    decreases |ps|
  {
    if |ps| == 1 then Dispatch(env, s, Command(CLA, ins, ps[0].p1, P2_LAST, ps[0].data), hashOk)
    else Feed(env, Dispatch(env, s, Command(CLA, ins, ps[0].p1, P2_MORE, ps[0].data), hashOk).state, ins, ps[1..],
              hashOk)
  }

  /** However a transaction is cut into chunks and numbered, the outcome is that of one chunk. */
  lemma {:induction false} ChunkingIsIrrelevant(env: Env, s: State, ps: seq<Piece>, hashOk: bool)
    requires s.ctx.req == ConfirmTransaction && s.ctx.union.TxInfo? && PiecesOk(ps)
    requires |s.ctx.union.raw| + |Joined(ps)| <= env.t.maxTx
    ensures Feed(env, s, INS_SIGN_TX, ps, hashOk) == SignTx(env, s, Joined(ps), 1, false, hashOk)
    decreases ps
  {
    hide HashAndDisplay, Deserialize;
    var first := ps[0];
    if |ps| == 1 {
      assert Joined(ps[1..]) == [];
      assert Joined(ps) == first.data;
    } else {
      var raw := s.ctx.union.raw;
      var s1 := s.(ctx := s.ctx.(union := TxInfo(raw + first.data, s.ctx.union.hash)));
      var cmd := Command(CLA, INS_SIGN_TX, first.p1, P2_MORE, first.data);
      assert Dispatch(env, s, cmd, hashOk) == Next(s1, Answer(SW_OK));
      ChunkingIsIrrelevant(env, s1, ps[1..], hashOk);
      assert raw + first.data + Joined(ps[1..]) == raw + Joined(ps);
    }
  }

  /** And the same of a message. */
  lemma {:induction false} MessageChunking(env: Env, s: State, ps: seq<Piece>, hashOk: bool)
    requires s.ctx.req == ConfirmMessage && s.ctx.union.MsgInfo? && PiecesOk(ps)
    requires |s.ctx.union.raw| + |Joined(ps)| <= MAX_MESSAGE_LEN
    ensures Feed(env, s, INS_SIGN_MESSAGE, ps, hashOk) == SignMessage(env, s, Joined(ps), 1, false, hashOk)
    decreases ps
  {
    hide UiMessage, MsgHash;
    var first := ps[0];
    if |ps| == 1 {
      assert Joined(ps[1..]) == [];
      assert Joined(ps) == first.data;
    } else {
      var raw := s.ctx.union.raw;
      var s1 := s.(ctx := s.ctx.(union := MsgInfo(raw + first.data, s.ctx.union.hash)));
      var cmd := Command(CLA, INS_SIGN_MESSAGE, first.p1, P2_MORE, first.data);
      assert Dispatch(env, s, cmd, hashOk) == Next(s1, Answer(SW_OK));
      MessageChunking(env, s1, ps[1..], hashOk);
      assert raw + first.data + Joined(ps[1..]) == raw + Joined(ps);
    }
  }

  // ----- every well-formed transaction can be signed

  /** After a first chunk. */
  function Opened(env: Env, s: State, ins: byte, first: seq<byte>): State {
    Dispatch(env, s, Command(CLA, ins, P1_START, P2_MORE, first), true).state
  }

  lemma OpenedEmpty(env: Env, s: State, first: seq<byte>)
    requires first != []
    ensures Opened(env, s, INS_SIGN_TX, first) ==
            s.(ctx := Context(NoPhase, ConfirmTransaction, TxInfo([], []), PathOf(first)))
    ensures Opened(env, s, INS_SIGN_MESSAGE, first) ==
            s.(ctx := Context(NoPhase, ConfirmMessage, MsgInfo([], []), PathOf(first)))
  {
  }

  /** The three ends of a review: a signature under the path of the first chunk, a signature that fails, and
      a refusal. */
  predicate CanBeSigned(env: Env, s: State, kind: Pending, path: Path, hash: seq<byte>) {
    && Step(env, s, Choice(true, true)).output == Signed(kind, path, hash)
    && Step(env, s, Choice(true, false)).output == Answer(0xb008)
    && forall signOk :: Step(env, s, Choice(false, signOk)).output == Answer(0x6985)
  }

  /** In every state, sending a path and then any chunking of a well-formed transaction shows its
      review, and confirming it signs its threefold hash; blind signing need not be on. */
  lemma WellFormedCanBeSigned(env: Env, s: State, first: seq<byte>, tx: G.Tx, ps: seq<Piece>)
    requires s.pending == NoReview && first != [] && G.TxOk(env.t, tx) && PiecesOk(ps) &&
             Joined(ps) == G.PrintTx(env.t, tx)
    requires SignerOf(env, PathOf(first)).Some? && Reviewed(env.base58, tx).Some?
    ensures var n := Feed(env, Opened(env, s, 0x02, first), 0x02, ps, true);
            && n.output.ReviewOf? && n.output.kind == TxPending
            && Ends(n.output.rows, Reviewed(env.base58, tx).value, tx.header, SignerOf(env, PathOf(first)).value)
            && CanBeSigned(env, n.state, TxPending, PathOf(first), env.sha(env.sha(env.sha(Joined(ps)))))
  {
    hide Deserialize, Reviewed, Closing, PathOf, SignerOf, G.TxOk, G.PrintTx, Ends;
    var s1 := Opened(env, s, INS_SIGN_TX, first);
    OpenedEmpty(env, s, first);
    PrintThenParse(env.t, tx);
    AcceptsExactlyThePrinted(env.t, Joined(ps), tx);
    WithinSize(env.t, tx);
    ChunkingIsIrrelevant(env, s1, ps, true);
    assert [] + Joined(ps) == Joined(ps);
    OkHeader(env.t, tx);
    EndsWith(Reviewed(env.base58, tx).value, tx.header, SignerOf(env, PathOf(first)).value);
  }

  /** In every state, sending a path and then any chunking of a message of at most 1024 bytes shows it in
      full, and confirming signs the hash of the text in front, the length in decimal digits, and the
      message. */
  lemma MessageCanBeSigned(env: Env, s: State, first: seq<byte>, msg: seq<byte>, ps: seq<Piece>) returns (d: string)
    requires s.pending == NoReview && first != [] && |msg| <= 1024 && PiecesOk(ps) && Joined(ps) == msg
    requires SignerOf(env, PathOf(first)).Some?
    ensures Numeral(d, |msg|)
    ensures var n := Feed(env, Opened(env, s, 0x07, first), 0x07, ps, true);
            && n.output.ReviewOf? && n.output.kind == MsgPending && |n.output.rows| == 2
            && n.output.rows[0].caption == Message && ShowsMessage(n.output.rows[0].text, msg)
            && n.output.rows[1] == Shown(Signer, SignerOf(env, PathOf(first)).value)
            && CanBeSigned(env, n.state, MsgPending, PathOf(first), env.sha(Preimage(d, msg)))
  {
    hide PathOf, SignerOf, ShowsMessage, MsgHash, Preimage, MessageReview, Numeral;
    var s1 := Opened(env, s, INS_SIGN_MESSAGE, first);
    OpenedEmpty(env, s, first);
    JoinedSome(ps);
    MessageAlwaysShown(env, msg, PathOf(first));
    MessageChunking(env, s1, ps, true);
    assert [] + msg == msg;
    d := MsgHashMeans(env, msg);
  }

  lemma JoinedSome(ps: seq<Piece>)
    requires PiecesOk(ps)
    ensures Joined(ps) != []
  {
    assert ps[0].data != [];
  }

  lemma WithinSize(t: Target, tx: G.Tx)
    requires G.TxOk(t, tx)
    ensures |G.PrintTx(t, tx)| <= t.maxTx
  {
  }

  // ----- a signed transaction was shown

  /** Exchange `i` of the run signs a transaction that was accepted, as it must be with blind signing
      off. */
  predicate SignsTx(env: Env, blind: bool, tr: seq<Exchange>, i: nat) {
    && Run(env, blind, tr).Some? && i < |tr| && tr[i].output.Signed? && tr[i].output.kind == TxPending
    && (BlindAfter(blind, tr[..i]) ==>
          var h := HistoryOf(tr[..i]); h.TxSession? && Deserialize(env.t, h.bytes).Accepted?)
  }

  /** The rows are `shown`, then fee and signer. */
  predicate Ends(rows: seq<Shown>, shown: seq<Shown>, h: G.Header, signer: string) {
    shown <= rows && ClosesWith(rows[|shown|..], h, signer)
  }

  lemma EndsWith(shown: seq<Shown>, h: G.Header, signer: string)
    requires G.HeaderOk(h)
    ensures Ends(shown + Closing(h, signer), shown, h, signer)
    ensures |shown + Closing(h, signer)| == |shown| + 2
  {
    hide ClosesWith, G.HeaderOk;
    ClosingRows(h, signer);
    EndLength(Closing(h, signer), h, signer);
    assert (shown + Closing(h, signer))[|shown|..] == Closing(h, signer);
  }

  lemma EndLength(rows: seq<Shown>, h: G.Header, signer: string)
    requires ClosesWith(rows, h, signer)
    ensures |rows| == 2
  {
  }

  /** Directly before the signature the rows were `shown`, then fee and signer. */
  predicate ShownBefore(env: Env, tr: seq<Exchange>, i: nat, tx: G.Tx, shown: seq<Shown>) {
    && 0 < i < |tr| && HistoryOf(tr[..i]).TxSession?
    && var h := HistoryOf(tr[..i]);
       && G.TxOk(env.t, tx) && G.PrintTx(env.t, tx) == h.bytes
       && SignerOf(env, PathOf(h.first)).Some?
       && tr[i - 1].output.ReviewOf? && tr[i - 1].output.kind == TxPending
       && Ends(tr[i - 1].output.rows, shown, tx.header, SignerOf(env, PathOf(h.first)).value)
       && tr[i].output == Signed(TxPending, PathOf(h.first), env.sha(env.sha(env.sha(h.bytes))))
  }

  /** What was signed is the printed form of a transaction whose plan was shown, then two rows for fee
      and signer. The plan shows all parameters if and only if `CompleteWhen` says so; and the fee row,
      in front of an address, is the fee if and only if the fee ends in the needed zeros. */
  lemma SignedWasShown(env: Env, blind: bool, tr: seq<Exchange>, i: nat) returns (tx: G.Tx, shown: seq<Shown>)
    requires SignsTx(env, blind, tr, i)
    ensures ShownBefore(env, tr, i, tx, shown) && Reviewed(env.base58, tx) == Some(shown)
    ensures Complete(env.base58, tx, shown) <==> CompleteWhen(tx)
    ensures tr[i - 1].output.ReviewOf? && |tr[i - 1].output.rows| == |shown| + 2
    ensures var fee, signer := tr[i - 1].output.rows[|shown|], tr[i - 1].output.rows[|shown| + 1];
            && signer == Shown(Signer, SignerOf(env, PathOf(HistoryOf(tr[..i]).first)).value)
            && (|signer.text| >= 8 ==>
                  (fee.text == FeeInOng(tx.header) <==> G.Fee(tx.header) % Pow10(ZerosNeeded(tx.header)) == 0))
  {
    hide Deserialize, Reviewed, Closing, PathOf, SignerOf, G.TxOk, G.PrintTx, Run, HistoryOf, BlindAfter, PathAnswered,
      Complete, CompleteWhen, Ends, ClosesWith, FeeInOng, G.Fee, ZerosNeeded, Pow10;
    SignedIsReviewed(env, blind, tr, i);
    var h := HistoryOf(tr[..i]);
    tx := Deserialize(env.t, h.bytes).tx;
    ExactCover(env.t, h.bytes);
    shown := Reviewed(env.base58, tx).value;
    ReviewComplete(env.t, env.base58, tx);
    OkHeader(env.t, tx);
    EndsWith(shown, tx.header, SignerOf(env, PathOf(h.first)).value);
    ClosingLaw(shown, tx.header, SignerOf(env, PathOf(h.first)).value);
  }

  lemma ClosingLaw(shown: seq<Shown>, h: G.Header, signer: string)
    requires G.HeaderOk(h)
    ensures var rows := shown + Closing(h, signer);
            && |rows| == |shown| + 2 && rows[|shown| + 1] == Shown(Signer, signer)
            && (|signer| >= 8 ==> (rows[|shown|].text == FeeInOng(h) <==> G.Fee(h) % Pow10(ZerosNeeded(h)) == 0))
  {
    hide FeeInOng, G.Fee, ZerosNeeded, Pow10, G.HeaderOk, Closing;
    ClosingRows(h, signer);
  }

  lemma OkHeader(t: Target, tx: G.Tx)
    requires G.TxOk(t, tx)
    ensures G.HeaderOk(tx.header)
  {
  }

  /** Two signatures of the same method behind the same review are of the same parameters, if the
      review has a row for each. */
  lemma SameReviewSameParameters(env: Env, blind: bool, tr: seq<Exchange>, i: nat, j: nat)
    returns (tx: G.Tx, other: G.Tx, shown: seq<Shown>)
    requires SignsTx(env, blind, tr, i) && SignsTx(env, blind, tr, j) && Injective(env.base58)
    requires i > 0 && j > 0 && tr[i - 1].output == tr[j - 1].output
    ensures ShownBefore(env, tr, i, tx, shown) && ShownBefore(env, tr, j, other, shown)
    ensures tx.payload.call == other.payload.call && G.VmOf(tx.payload) == G.VmOf(other.payload) && Determined(tx) ==>
              SameParameters(tx, other)
  {
    hide Reviewed, ShownBefore, SignsTx, Complete, CompleteWhen, SameParameters, Determined, Injective, FeeInOng, G.Fee,
      ZerosNeeded, Pow10, HistoryOf, SignerOf, PathOf;
    var shown';
    tx, shown := SignedWasShown(env, blind, tr, i);
    other, shown' := SignedWasShown(env, blind, tr, j);
    SameShown(env, tr, i, tx, shown, j, other, shown');
    if tx.payload.call == other.payload.call && G.VmOf(tx.payload) == G.VmOf(other.payload) && Determined(tx) {
      WasOk(env, tr, i, tx, shown);
      WasOk(env, tr, j, other, shown);
      hide G.TxOk;
      ReviewDetermines(env.t, env.base58, tx, other);
    }
  }

  lemma SameShown(env: Env, tr: seq<Exchange>, i: nat, tx: G.Tx, shown: seq<Shown>, j: nat, other: G.Tx,
                  shown': seq<Shown>)
    requires ShownBefore(env, tr, i, tx, shown) && ShownBefore(env, tr, j, other, shown')
    requires tr[i - 1].output == tr[j - 1].output
    ensures shown == shown'
  {
    hide G.TxOk, G.PrintTx, HistoryOf, PathOf, SignerOf, TxHash, FeeInOng;
    var rows := tr[i - 1].output.rows;
    assert shown == rows[..|rows| - 2] && shown' == rows[..|rows| - 2];
  }

  /** A signed list of transfers was shown transfer by transfer: sender, amount and receiver, in ONT or ONG
      with the decimals of its method. */
  lemma SignedTransfersWereShown(env: Env, blind: bool, tr: seq<Exchange>, i: nat) returns (tx: G.Tx, shown: seq<Shown>)
    requires SignsTx(env, blind, tr, i)
    ensures ShownBefore(env, tr, i, tx, shown)
    ensures tx.payload.TransferList? ==>
              var call, states := tx.payload.call, tx.payload.states;
              var more := if call.name == Ascii("transferV2") then 9 else 0;
              && states != [] && |shown| == 3 * |states|
              && (call.addr == ONT_ADDR || call.addr == ONG_ADDR)
              && (call.addr == ONT_ADDR ==> R.ListRows(env.base58, states, more, " ONT") == Some(shown))
              && (call.addr == ONG_ADDR ==> R.ListRows(env.base58, states, 9 + more, " ONG") == Some(shown))
  {
    hide Reviewed, ShownBefore, SignsTx, Complete, CompleteWhen, AllTransferRows, R.ListRows, Ascii;
    tx, shown := SignedWasShown(env, blind, tr, i);
    WasOk(env, tr, i, tx, shown);
    if tx.payload.TransferList? {
      hide G.TxOk;
      TransfersShown(env.t, env.base58, tx);
      R.ListReview(env.t, env.base58, tx);
    }
  }

  /** The rows are those of a stake whose amounts are captioned `l`. */
  predicate SignedStake(env: Env, tx: G.Tx, l: Label, shown: seq<Shown>) {
    S.Stakes(tx) && S.StakeWritten(env.base58, S.StakeIn(tx), l, shown)
  }

  /** A signed staking call was shown peer by peer, or with its true total, if and only if it is native
      and a total that is shown fits in 64 bits; its amounts were captioned as those of its method. One that
      is not native was shown with its stake address alone. */
  lemma SignedStakingWasShown(env: Env, blind: bool, tr: seq<Exchange>, i: nat) returns (tx: G.Tx, shown: seq<Shown>)
    requires SignsTx(env, blind, tr, i)
    ensures ShownBefore(env, tr, i, tx, shown)
    ensures IsStaking(tx.payload.call.name) ==>
              && S.Stakes(tx)
              && (S.WholeStake(env.base58, InfoOf(tx), S.StakeIn(tx), shown) <==>
                  tx.payload.NativeCall? && S.TotalFits(S.StakeIn(tx)))
              && (!tx.payload.NativeCall? ==> S.StakeAddressRow(env.base58, S.StakeIn(tx)) == Some(shown))
    ensures tx.payload.NativeCall? ==>
              var name := tx.payload.call.name;
              && (name == Ascii("authorizeForPeer") ==> SignedStake(env, tx, StakeAmount, shown))
              && (name == Ascii("unAuthorizeForPeer") ==> SignedStake(env, tx, UnstakeAmount, shown))
              && (name == Ascii("withdraw") ==> SignedStake(env, tx, WithdrawAmount, shown))
  {
    hide Reviewed, ShownBefore, SignsTx, Complete, CompleteWhen, S.WholeStake, S.StakeIn, S.TotalFits,
      S.StakeAddressRow, S.StakeWritten, IsStaking, InfoOf, Ascii;
    tx, shown := SignedWasShown(env, blind, tr, i);
    WasOk(env, tr, i, tx, shown);
    hide G.TxOk;
    if tx.payload.NativeCall? {
      S.StakingReview(env.t, env.base58, tx);
    }
    if IsStaking(tx.payload.call.name) {
      S.StakingShown(env.t, env.base58, tx);
      S.StakeShownInFull(env.t, env.base58, tx);
    }
  }

  /** Any other signed call was shown with one row, with its text, for each entry of its plan, and the
      fixed fee of a native registerCandidate, and no other row; and the captions fit if and only if the
      call is faithful. In the virtual machine of its contract it was shown with the rows written out in
      `MethodRows`. */
  lemma SignedCallWasShown(env: Env, blind: bool, tr: seq<Exchange>, i: nat) returns (tx: G.Tx, shown: seq<Shown>)
    requires SignsTx(env, blind, tr, i)
    ensures ShownBefore(env, tr, i, tx, shown)
    ensures var vm, call := G.VmOf(tx.payload), tx.payload.call;
            var c := PlanOf(tx);
            !tx.payload.TransferList? && !IsStaking(call.name) ==>
              && c.Some?
              && |shown| == |c.value| + (if vm == NativeVm && call.name == REGISTER_CANDIDATE then 1 else 0)
              && TextsHold(env.base58, InfoOf(tx), tx, shown)
              && (CaptionsHold(tx) <==> Faithful(call.addr, call.name, vm))
    ensures R.RowByRow(tx.payload) ==> R.CallRows(env.base58, tx.payload.call, ArgsOf(tx.payload)) == Some(shown)
  {
    hide R.RowByRow, R.CallRows, Reviewed, ShownBefore, SignsTx, Complete, CompleteWhen, TextsHold, CaptionsHold,
      Faithful, Configs, IsStaking,
      InfoOf;
    tx, shown := SignedWasShown(env, blind, tr, i);
    WasOk(env, tr, i, tx, shown);
    hide G.TxOk;
    if R.RowByRow(tx.payload) {
      R.CallReview(env.t, env.base58, tx);
    }
    if !tx.payload.TransferList? && !IsStaking(tx.payload.call.name) {
      CaptionsFit(env.t, env.base58, tx);
    }
  }

  lemma WasOk(env: Env, tr: seq<Exchange>, i: nat, tx: G.Tx, shown: seq<Shown>)
    requires ShownBefore(env, tr, i, tx, shown)
    ensures G.TxOk(env.t, tx)
  {
  }

  // ----- blind signing

  /** The warning, the address of the contract that `u` calls in hexadecimal digits, its fee, and the
      signer. */
  predicate BlindReview(rows: seq<Shown>, u: Unknown, signer: string) {
    && |rows| == 4
    && rows[0] == Shown(BlindSignTx, "Transaction cannot be verified!")
    && rows[1].caption == ContractAddress && SpellsHex(rows[1].text, u.call.addr)
    && ClosesWith(rows[2..], u.header, signer)
  }

  lemma BlindRowsReviewed(u: Unknown, signer: string)
    requires G.HeaderOk(u.header)
    ensures BlindReview(BlindRows(u.call.addr) + Closing(u.header, signer), u, signer)
  {
    hide BlindRows, Closing, SpellsHex, ClosesWith, G.HeaderOk;
    BlindRowsRead(u.call.addr);
    EndsWith(BlindRows(u.call.addr), u.header, signer);
  }

  /** That was the review directly before the signature. */
  predicate BlindShownBefore(env: Env, tr: seq<Exchange>, i: nat, u: Unknown) {
    && 0 < i <= |tr| && HistoryOf(tr[..i]).TxSession? && tr[i - 1].output.ReviewOf?
    && var signer := SignerOf(env, PathOf(HistoryOf(tr[..i]).first));
       signer.Some? && BlindReview(tr[i - 1].output.rows, u, signer.value)
  }

  /** With blind signing on, what is signed without being understood is exactly an unregistered call:
      the review warns and names its contract, and no registered pair is ever behind it. */
  lemma BlindIsUnregistered(env: Env, blind: bool, tr: seq<Exchange>, i: nat)
    requires Run(env, blind, tr).Some? && i < |tr| && tr[i].output.Signed? && tr[i].output.kind == TxPending
    ensures HistoryOf(tr[..i]).TxSession?
    ensures var b := HistoryOf(tr[..i]).bytes;
            !Deserialize(env.t, b).Accepted? ==>
              && BlindAfter(blind, tr[..i])
              && exists u :: && UnknownOk(env.t, u) && b == PrintUnknown(env.t, u)
                             && Lookup(u.call.addr, u.call.name).None? && BlindShownBefore(env, tr, i, u)
  {
    hide Deserialize, PathOf, Run, HistoryOf, BlindAfter, PathAnswered, BlindRows, Closing, SignerOf, UnknownOk,
      PrintUnknown,
      BlindReview;
    SignedIsReviewed(env, blind, tr, i);
    var h := HistoryOf(tr[..i]);
    if Deserialize(env.t, h.bytes).Undefined? {
      var u := UndefinedIsUnknown(env.t, h.bytes);
      UnknownIsUndefined(env.t, u);
      UnknownHeader(env.t, u);
      BlindRowsReviewed(u, SignerOf(env, PathOf(h.first)).value);
      assert BlindShownBefore(env, tr, i, u);
    }
  }

  lemma UnknownHeader(t: Target, u: Unknown)
    requires UnknownOk(t, u)
    ensures G.HeaderOk(u.header) && Lookup(u.call.addr, u.call.name) == None
  {
  }

  // ----- paths

  /** A first chunk whose path is refused leaves the session open, so the property "every signature is
      under a path of the app" needs the answer SW_OK: here is a run without it. */
  lemma RefusedPathCanBeUsed(env: Env) returns (tr: seq<Exchange>)
    requires SignerOf(env, PathOf([1, 0, 0, 0, 0])).Some?
    ensures |tr| == 3 && Run(env, false, tr).Some? && tr[2].output.Signed?
    ensures HistoryOf(tr[..2]).MsgSession? && HistoryOf(tr[..2]).answer == SW_INVALID_PATH
  {
    hide PathOf, MessageReview, MsgHash;
    var first := [1, 0, 0, 0, 0];
    PathOfOne();
    var e0, e1, e2 := Apdu(Command(CLA, INS_SIGN_MESSAGE, 0, P2_MORE, first), true),
      Apdu(Command(CLA, INS_SIGN_MESSAGE, 1, P2_LAST, [0x41]), true), Choice(true, true);
    MessageAlwaysShown(env, [0x41], PathOf(first));
    var s0 := State(ZERO_CONTEXT, NoReview, false);
    var n0 := Step(env, s0, e0);
    var n1 := Step(env, n0.state, e1);
    assert [] + [0x41] == [0x41];
    var n2 := Step(env, n1.state, e2);
    var t1, t2 := [Exchange(e0, n0.output)], [Exchange(e0, n0.output), Exchange(e1, n1.output)];
    tr := [Exchange(e0, n0.output), Exchange(e1, n1.output), Exchange(e2, n2.output)];
    assert t1[..0] == [] && t2[..1] == t1 && tr[..2] == t2;
    hide Step;
    assert Run(env, false, []) == Some(s0);
    assert Run(env, false, t1) == Some(n0.state);
    assert Run(env, false, t2) == Some(n1.state);
    assert HistoryOf([]) == Idle;
    assert HistoryOf(t1) == MsgSession(first, SW_INVALID_PATH, []);
  }

  lemma PathOfOne()
    ensures var p := PathOf([1, 0, 0, 0, 0]); !ValidPrefix(p)
  {
  }
}
