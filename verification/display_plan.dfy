/**
 What a review shows: labels and texts in order, as a function of the parsed parameters
 (src/ui/tx_init.c and handle_params of src/ui/nbgl_display_transaction.c). Captions stand for the
 strings of src/ui/types.h.
 */
module DisplayPlan {
  import opened Options
  import opened Bytes
  import opened TxTypes
  import opened Contracts
  import opened Decimal
  import opened Utils

  datatype Label =
    | From | To | Amount | Spender | GasFee | Signer | ContractAddress | Message | BlindSignTx | Address
    | PeerPubkey | PeerIncentive | UserIncentive | NodeAmount | MaxAuthorize | StakeAddress
    | StakeAmount | UnstakeAmount | WithdrawAmount | StakeFee
    | Total(of: Label)
    | Numbered(of: Label, n: nat)

  datatype Shown = Shown(caption: Label, text: string)

  /** One entry of a method's plan: the caption of a parameter and its position on the screen. */
  datatype Config = Config(item: Label, pos: nat)

  /** The call being shown, as far as the texts depend on it. */
  datatype Info = Info(vm: Vm, name: seq<byte>, ticker: string, decimals: nat)

  /** A parameter: its text, and its number where the display adds numbers up. */
  datatype Field = Field(text: Option<string>, number: Option<nat>)

  /** Base58Check encoding of a script hash; None when the SDK fails. */
  type Base58 = seq<byte> -> Option<string>

  // ----- the plan of each method

  function Configs(vm: Vm, name: seq<byte>): Option<seq<Config>> {
    if name == TRANSFER || name == APPROVE then
      if vm != NeoVm then Some([Config(From, 0), Config(To, 2), Config(Amount, 1)])
      else Some([Config(Amount, 1), Config(To, 2), Config(From, 0)])
    else if name == TRANSFER_V2 || name == APPROVE_V2 then
      Some([Config(From, 0), Config(To, 2), Config(Amount, 1)])
    else if name == TRANSFER_FROM && vm == NeoVm then
      Some([Config(Amount, 2), Config(To, 3), Config(From, 1), Config(Spender, 0)])
    else if name == TRANSFER_FROM || name == TRANSFER_FROM_V2 then
      Some([Config(Spender, 0), Config(From, 1), Config(To, 3), Config(Amount, 2)])
    else if name == REGISTER_CANDIDATE || name == ADD_INIT_POS then
      Some([Config(PeerPubkey, 1), Config(StakeAddress, 0), Config(StakeAmount, 2)])
    else if name == QUIT_NODE then Some([Config(PeerPubkey, 1), Config(StakeAddress, 0)])
    else if name == REDUCE_INIT_POS then
      Some([Config(PeerPubkey, 1), Config(StakeAddress, 0), Config(Amount, 2)])
    else if name == CHANGE_MAX_AUTH then
      Some([Config(PeerPubkey, 1), Config(StakeAddress, 0), Config(MaxAuthorize, 2)])
    else if name == SET_FEE_PERCENTAGE then
      Some([Config(PeerPubkey, 1), Config(StakeAddress, 0), Config(PeerIncentive, 2), Config(UserIncentive, 3)])
    else if IsStaking(name) || name == WITHDRAW_FEE then Some([Config(StakeAddress, 0)])
    else None
  }

  predicate IsStaking(name: seq<byte>) {
    name == AUTHORIZE_FOR_PEER || name == UNAUTHORIZE_FOR_PEER || name == WITHDRAW
  }

  /** The parameter shown at position `p`. */
  function IndexAt(configs: seq<Config>, p: nat): (i: nat)
    ensures i <= |configs| && (i < |configs| ==> configs[i].pos == p)
    ensures forall j :: 0 <= j < i ==> configs[j].pos != p
  {
    if configs == [] || configs[0].pos == p then 0 else 1 + IndexAt(configs[1..], p)
  }

  /** The positions are 0, 1, ... in some order. */
  predicate Permuted(configs: seq<Config>) {
    && (forall i :: 0 <= i < |configs| ==> configs[i].pos < |configs|)
    && (forall i, j :: 0 <= i < j < |configs| ==> configs[i].pos != configs[j].pos)
    && (forall p :: 0 <= p < |configs| ==> IndexAt(configs, p) < |configs|)
  }

  lemma {:induction false} IndexFound(configs: seq<Config>, p: nat, i: nat)
    requires i < |configs| && configs[i].pos == p
    ensures IndexAt(configs, p) <= i
  {
    if configs[0].pos != p {
      IndexFound(configs[1..], p, i - 1);
    }
  }

  /** Up to four entries whose positions are their numbers in some order. */
  lemma PermutedIf(c: seq<Config>)
    requires 0 < |c| <= 4
    requires forall i :: 0 <= i < |c| ==> c[i].pos < |c|
    requires forall i, j :: 0 <= i < j < |c| ==> c[i].pos != c[j].pos
    ensures Permuted(c)
  {
    hide IndexAt;
    forall p | 0 <= p < |c|
      ensures IndexAt(c, p) < |c|
    {
      assert exists i :: 0 <= i < |c| && c[i].pos == p by {
        if |c| > 0 { assert c[0].pos < |c|; }
        if |c| > 1 { assert c[1].pos < |c| && c[0].pos != c[1].pos; }
        if |c| > 2 { assert c[2].pos < |c| && c[0].pos != c[2].pos && c[1].pos != c[2].pos; }
        if |c| > 3 { assert c[3].pos < |c| && c[0].pos != c[3].pos && c[1].pos != c[3].pos && c[2].pos != c[3].pos; }
      }
      var i :| 0 <= i < |c| && c[i].pos == p;
      IndexFound(c, p, i);
    }
  }

  lemma ConfigsPermuted(vm: Vm, name: seq<byte>)
    ensures var c := Configs(vm, name); c.Some? ==> 0 < |c.value| <= 4 && Permuted(c.value)
  {
    hide Permuted;
    var c := Configs(vm, name);
    if c.Some? {
      PermutedIf(c.value);
    }
  }

  // ----- texts

  function Suffix(info: Info): string {
    if info.name == SET_FEE_PERCENTAGE then "%" else " " + info.ticker
  }

  /** convert_param_to_chars. */
  function FieldText(base58: Base58, info: Info, b: seq<byte>, s: Slot): Option<string>
    requires InBytes(b, s)
  {
    if !s.Slot? then None
    else
      match s.kind
      case AddrKind => base58(SlotBytes(b, s))
      case PubKeyKind => if s.len < 67 then Some(AsChars(SlotBytes(b, s))) else None
      case AmountKind => WithSuffix(info, ParamText(b, s, info.decimals, info.vm != WasmVm))
      case Uint128Kind => WithSuffix(info, ParamText(b, s, info.decimals, info.vm != WasmVm))
      case _ => None
  }

  function AsChars(bs: seq<byte>): (s: string)
    ensures |s| == |bs| && forall i :: 0 <= i < |s| ==> s[i] as int == bs[i]
  {
    seq(|bs|, i requires 0 <= i < |bs| => bs[i] as char)
  }

  function WithSuffix(info: Info, text: Option<string>): Option<string> {
    match text
    case None => None
    case Some(s) => Some(s + Suffix(info))
  }

  function FieldOf(base58: Base58, info: Info, b: seq<byte>, s: Slot): Field
    requires InBytes(b, s)
  {
    Field(FieldText(base58, info, b, s), ParamU64(b, s))
  }

  predicate AllIn(b: seq<byte>, slots: seq<Slot>) {
    forall i :: 0 <= i < |slots| ==> InBytes(b, slots[i])
  }

  function FieldsOf(base58: Base58, info: Info, b: seq<byte>, slots: seq<Slot>): (r: seq<Field>)
    requires AllIn(b, slots)
    ensures |r| == |slots|
  {
    seq(|slots|, i requires 0 <= i < |slots| => FieldOf(base58, info, b, slots[i]))
  }

  // ----- the plan

  /** One block of parameters, each at its position; None if a text cannot be made. */
  function Block(configs: seq<Config>, fields: seq<Field>): (r: Option<seq<Shown>>)
    requires Permuted(configs)
    ensures r.Some? ==> |r.value| == |configs|
  {
    if |fields| < |configs| || exists i :: 0 <= i < |configs| && fields[i].text.None? then None
    else
      Some(seq(|configs|, p requires 0 <= p < |configs| =>
        var i := IndexAt(configs, p);
        Shown(configs[i].item, fields[i].text.value)))
  }

  function Append(a: Option<seq<Shown>>, b: Option<seq<Shown>>): Option<seq<Shown>> {
    if a.Some? && b.Some? then Some(a.value + b.value) else None
  }

  /** Block after block, as long as there are parameters. */
  function Blocks(configs: seq<Config>, fields: seq<Field>): (r: Option<seq<Shown>>)
    requires Permuted(configs) && |configs| == 3
    decreases |fields|
  {
    if fields == [] then Some([])
    else if |fields| < 3 then None
    else Append(Block(configs, fields[..3]), Blocks(configs, fields[3..]))
  }

  function StakeLabel(name: seq<byte>): Label {
    if name == AUTHORIZE_FOR_PEER then StakeAmount
    else if name == UNAUTHORIZE_FOR_PEER then UnstakeAmount
    else WithdrawAmount
  }

  /** The caption of entry `i` (counted from 0) of `n`. */
  function Counted(l: Label, i: nat, n: nat): Label {
    if n == 1 then l else Numbered(l, i + 1)
  }

  const MAX_PUBKEY_DISPLAY: nat := 3

  /** What is shown for key `i`: the key, and its amount if there are at most three. */
  function KeyEntry(name: seq<byte>, fields: seq<Field>, n: nat, i: nat): Option<seq<Shown>>
    requires i < n && 2 + 2 * n <= |fields|
  {
    var key, amount := fields[2 + i].text, fields[2 + n + i].text;
    if key.None? then None
    else if n > MAX_PUBKEY_DISPLAY then Some([Shown(Counted(PeerPubkey, i, n), key.value)])
    else if amount.None? then None
    else Some([Shown(Counted(PeerPubkey, i, n), key.value), Shown(Counted(StakeLabel(name), i, n), amount.value)])
  }

  /** Entries of the first `m` keys. */
  function KeyEntries(name: seq<byte>, fields: seq<Field>, n: nat, m: nat): Option<seq<Shown>>
    requires m <= n && 2 + 2 * n <= |fields|
  {
    if m == 0 then Some([]) else Append(KeyEntries(name, fields, n, m - 1), KeyEntry(name, fields, n, m - 1))
  }

  /** Sum of the first `m` amounts in 64-bit arithmetic. */
  function AmountSum(fields: seq<Field>, n: nat, m: nat): Option<nat>
    requires m <= n && 2 + 2 * n <= |fields|
  {
    if m == 0 then Some(0)
    else
      var s, x := AmountSum(fields, n, m - 1), fields[2 + n + m - 1].number;
      if s.None? || x.None? then None else Some((s.value + x.value) % U64)
  }

  /** The entries behind the stake address. */
  function StakePlan(info: Info, fields: seq<Field>): Option<seq<Shown>> {
    if |fields| < 2 || fields[1].number.None? || fields[1].number.value == 0 then None
    else
      var n := fields[1].number.value;
      if |fields| < 2 + 2 * n then None
      else
        var shown := if n < MAX_PUBKEY_DISPLAY then n else MAX_PUBKEY_DISPLAY;
        if n <= MAX_PUBKEY_DISPLAY then KeyEntries(info.name, fields, n, shown)
        else
          match AmountSum(fields, n, n)
          case None => None
          case Some(sum) =>
            Append(KeyEntries(info.name, fields, n, shown),
                   Some([Shown(NodeAmount, Digits(n - MAX_PUBKEY_DISPLAY)),
                         Shown(Total(StakeLabel(info.name)), Digits(sum) + " " + info.ticker)]))
  }

  /** handle_params. */
  function Plan(info: Info, fields: seq<Field>): Option<seq<Shown>> {
    match Configs(info.vm, info.name)
    case None => None
    case Some(configs) =>
      ConfigsPermuted(info.vm, info.name);
      var first := Block(configs, fields);
      if first.None? then None
      else if info.vm != NativeVm then first
      else if info.name == REGISTER_CANDIDATE then Append(first, Some([Shown(StakeFee, "500 ONG")]))
      else if IsStaking(info.name) then Append(first, StakePlan(info, fields))
      else if IsTransfer(info.name) then
        if |fields| < 3 then None else Append(first, Blocks(configs, fields[3..]))
      else first
  }
}
