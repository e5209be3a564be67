/**
 The parameters of a call as what they mean: an address, a key, or a number. The display's texts are
 those of the meanings, whatever the encoding. Lists have their own laws.
 */
module Params {
  import opened Options
  import opened Bytes
  import opened TxTypes
  import G = Grammar
  import opened Decimal
  import opened Utils
  import opened StoredFields
  import opened DisplayPlan
  import opened DisplayLaws

  /** A prefixed amount and the sixteen bare bytes of a WebAssembly call are both numbers. */
  datatype Param =
    | AddrParam(hash: seq<byte>)
    | KeyParam(hex: seq<byte>)
    | AmountParam(value: nat)
    | WordParam(value: nat)

  function ParamsOf(v: G.Value): seq<Param> {
    match v
    case Addr(hash) => [AddrParam(hash)]
    case PubKey(hex) => [KeyParam(hex)]
    case Amt(a) => [AmountParam(G.AmountValue(a))]
    case Uint128(raw) => [WordParam(LeValue(raw))]
    case State(s) => [AddrParam(s.from), AddrParam(s.to), AmountParam(G.AmountValue(s.amount))]
    case _ => []
  }

  function AllParams(vs: seq<G.Value>): seq<Param> {
    if vs == [] then [] else ParamsOf(vs[0]) + AllParams(vs[1..])
  }

  /** The parameters of a call that are kept, in order. */
  function CallParams(tx: G.Tx): seq<Param> {
    AllParams(ArgsOf(tx.payload))
  }

  function KindOfParam(p: Param): ParamKind {
    match p
    case AddrParam(_) => AddrKind
    case KeyParam(_) => PubKeyKind
    case AmountParam(_) => AmountKind
    case WordParam(_) => Uint128Kind
  }

  /** The text of a number in units of 10^decimals. */
  function NumberShown(info: Info, value: nat): Option<string> {
    if info.decimals > 39 then None else Some(AmountText(value, info.decimals) + Suffix(info))
  }

  /** The text of a parameter; prefixed amounts have none in WebAssembly, bare ones only there. */
  function ParamShown(base58: Base58, info: Info, p: Param): Option<string> {
    match p
    case AddrParam(hash) => base58(hash)
    case KeyParam(hex) => Some(AsChars(hex))
    case AmountParam(value) => if info.vm == WasmVm then None else NumberShown(info, value)
    case WordParam(value) => if info.vm == WasmVm then NumberShown(info, value) else None
  }

  /** What is stored as `item` is shown as `p`. */
  predicate Means(base58: Base58, info: Info, item: Item, p: Param) {
    item.kind == KindOfParam(p) && ItemField(base58, info, item).text == ParamShown(base58, info, p)
  }

  predicate AllMean(base58: Base58, info: Info, items: seq<Item>, ps: seq<Param>) {
    |items| == |ps| && forall i :: 0 <= i < |items| ==> Means(base58, info, items[i], ps[i])
  }

  /** The sixteen bytes of a WebAssembly amount are shown as their little-endian value. */
  lemma WordItemField(base58: Base58, info: Info, raw: seq<byte>)
    requires |raw| == 16
    ensures Means(base58, info, Item(Uint128Kind, raw), WordParam(LeValue(raw)))
  {
    OccursWhole(raw, raw);
    Uint128Decodes(raw, 0, raw);
    hide LeValue, AmountText;
    if info.vm != WasmVm {
      PrefixNoWord(raw, Slot(Uint128Kind, 0, 16));
    }
  }

  lemma PrefixNoWord(b: seq<byte>, s: Slot)
    requires InBytes(b, s) && s.Slot? && s.kind == Uint128Kind
    ensures ParamU128(b, s, true) == None
  {
  }

  lemma AddrMeans(base58: Base58, info: Info, hash: seq<byte>)
    ensures Means(base58, info, Item(AddrKind, hash), AddrParam(hash))
  {
    hide ItemField;
    AddrItemField(base58, info, hash);
  }

  lemma AmountMeans(base58: Base58, info: Info, a: G.Amount)
    requires G.AmountOk(a)
    ensures Means(base58, info, AmountItem(a), AmountParam(G.AmountValue(a)))
  {
    AmountItemField(base58, info, a);
    hide ItemField, AmountText, G.AmountValue, G.PrintAmount;
  }

  lemma ValueMeans(t: Target, base58: Base58, info: Info, v: G.Value, cur: nat)
    requires G.ValueOk(t, v, cur) && !v.Pairs?
    ensures AllMean(base58, info, ValueContents(v), ParamsOf(v))
  {
    hide Means, G.AmountValue, AmountItem, LeValue;
    match v
    case Addr(hash) => AddrMeans(base58, info, hash);
    case PubKey(hex) => KeyMeans(base58, info, hex);
    case Amt(a) => AmountMeans(base58, info, a);
    case Uint128(raw) => WordItemField(base58, info, raw);
    case OntId(_) =>
    case State(s) =>
      AddrMeans(base58, info, s.from);
      AddrMeans(base58, info, s.to);
      AmountMeans(base58, info, s.amount);
  }

  lemma KeyMeans(base58: Base58, info: Info, hex: seq<byte>)
    requires |hex| == 66
    ensures Means(base58, info, Item(PubKeyKind, hex), KeyParam(hex))
  {
    hide ItemField;
    KeyItemField(base58, info, hex);
  }

  lemma AllMeanCat(base58: Base58, info: Info, a: seq<Item>, b: seq<Item>, p: seq<Param>, q: seq<Param>)
    requires AllMean(base58, info, a, p) && AllMean(base58, info, b, q)
    ensures AllMean(base58, info, a + b, p + q)
  {
    hide Means;
  }

  lemma {:induction false} ArgsMean(t: Target, base58: Base58, info: Info, kinds: seq<ParamKind>,
                                    args: seq<G.Value>, cur: nat)
    requires G.ArgsOk(t, kinds, args, cur) && PkAmountPairsKind !in kinds
    ensures AllMean(base58, info, ArgsContents(args), AllParams(args))
    decreases args
  {
    hide AllMean, G.ValueOk, ValueContents, ParamsOf;
    if args == [] {
      NoneMean(base58, info);
    } else {
      assert G.KindOf(args[0]) == kinds[0] != PkAmountPairsKind;
      ValueMeans(t, base58, info, args[0], cur);
      ArgsMean(t, base58, info, kinds[1..], args[1..], cur + G.Width(args[0]));
      AllMeanCat(base58, info, ValueContents(args[0]), ArgsContents(args[1..]), ParamsOf(args[0]),
                 AllParams(args[1..]));
    }
  }

  lemma NoneMean(base58: Base58, info: Info)
    ensures AllMean(base58, info, [], [])
  {
  }
}
