/**
 src/ui/nbgl_display_transaction.c: the review is assembled in two arrays. `cells` are the 67-byte
 slots of g_buffers, `pairs` the entries that point at them or at fixed strings. Texts are written
 to cells that no earlier entry uses, so every entry still shows what was put there for it.
 */
module Display {
  import opened Options
  import opened Bytes
  import opened TxTypes
  import opened Contracts
  import opened Decimal
  import opened Utils
  import opened CStrings
  import opened Formatting
  import opened DisplayPlan

  const MAX_BUFFER_LEN: nat := 67

  datatype Content = Blank | Caption(l: Label) | Chars(text: string)

  /** A reference to a constant string or into g_buffers. */
  datatype Ref = Fixed(c: Content) | Cell(k: nat)

  datatype Pair = NoPair | Pair(item: Ref, value: Ref)

  /** The reference leads to `c`, in a cell below `limit` if to a cell at all. */
  predicate Leads(r: Ref, cells: seq<Content>, limit: nat, c: Content) {
    match r
    case Fixed(x) => x == c
    case Cell(k) => k < limit && k < |cells| && cells[k] == c
  }

  predicate ShowsAt(p: Pair, cells: seq<Content>, limit: nat, s: Shown) {
    p.Pair? && Leads(p.item, cells, limit, Caption(s.caption)) && Leads(p.value, cells, limit, Chars(s.text))
  }

  /** The first entries show `want`. */
  predicate Shows(pairs: seq<Pair>, cells: seq<Content>, limit: nat, want: seq<Shown>) {
    |want| <= |pairs| && forall i :: 0 <= i < |want| ==> ShowsAt(pairs[i], cells, limit, want[i])
  }

  /** The entries from `base` on show `want`. */
  predicate ShowsFrom(pairs: seq<Pair>, cells: seq<Content>, base: nat, limit: nat, want: seq<Shown>) {
    base + |want| <= |pairs| && forall p :: 0 <= p < |want| ==> ShowsAt(pairs[base + p], cells, limit, want[p])
  }

  /** Writing cells from `limit` on and entries behind the shown ones changes nothing shown. */
  lemma ShowsKept(pairs: seq<Pair>, cells: seq<Content>, pairs': seq<Pair>, cells': seq<Content>, limit: nat,
                  limit': nat, want: seq<Shown>)
    requires Shows(pairs, cells, limit, want) && limit <= limit'
    requires |pairs| == |pairs'| && |cells| == |cells'|
    requires forall i :: 0 <= i < |want| ==> pairs'[i] == pairs[i]
    requires forall k :: 0 <= k < limit && k < |cells| ==> cells'[k] == cells[k]
    ensures Shows(pairs', cells', limit', want)
  {
    forall i | 0 <= i < |want|
      ensures ShowsAt(pairs'[i], cells', limit', want[i])
    {
      assert ShowsAt(pairs[i], cells, limit, want[i]);
    }
  }

  lemma ShowsMore(pairs: seq<Pair>, cells: seq<Content>, limit: nat, want: seq<Shown>, s: Shown)
    requires Shows(pairs, cells, limit, want) && |want| < |pairs| && ShowsAt(pairs[|want|], cells, limit, s)
    ensures Shows(pairs, cells, limit, want + [s])
  {
  }

  /** strlcat: as much as fits in `size` bytes with the final NUL. */
  function Cat(s: string, more: string, size: nat): string
    requires size > 0
  {
    var w := s + more;
    if |w| < size then w else w[..size - 1]
  }

  /** Amount texts leave room for the suffix in a 67-byte cell. */
  lemma AmountTextLength(v: nat, p: nat)
    requires v < U64 * U64 && p <= 39
    ensures |AmountText(v, p)| <= 41
  {
    U128Digits(v);
    NumeralParts(v, p);
  }

  // ----- init_dipslay_pos_and_item

  const MAX_CONFIGS: nat := 7

  /** The static array holds `c` in front. */
  predicate Planned(configs: seq<Config>, n: Option<nat>, c: Option<seq<Config>>) {
    match c
    case None => n.None?
    case Some(cs) => n == Some(|cs|) && cs <= configs
  }

  /** Fills the static array with the plan of a method and returns how many entries it has. */
  method InitDisplayPosAndItem(vm: Vm, name: seq<byte>, configs: array<Config>) returns (count: Option<nat>)
    requires configs.Length == MAX_CONFIGS
    modifies configs
    ensures Planned(configs[..], count, Configs(vm, name))
  {
    if name == [] {
      EmptyName(vm);
      return None;
    }
    if name == TRANSFER || name == APPROVE {
      if vm != NeoVm {
        configs[0], configs[1], configs[2] := Config(From, 0), Config(To, 2), Config(Amount, 1);
      } else {
        configs[0], configs[1], configs[2] := Config(Amount, 1), Config(To, 2), Config(From, 0);
      }
      count := Some(3);
    } else if name == TRANSFER_V2 || name == APPROVE_V2 {
      configs[0], configs[1], configs[2] := Config(From, 0), Config(To, 2), Config(Amount, 1);
      count := Some(3);
    } else if name == TRANSFER_FROM || name == TRANSFER_FROM_V2 {
      if name == TRANSFER_FROM && vm == NeoVm {
        configs[0], configs[1], configs[2], configs[3] :=
          Config(Amount, 2), Config(To, 3), Config(From, 1), Config(Spender, 0);
      } else {
        configs[0], configs[1], configs[2], configs[3] :=
          Config(Spender, 0), Config(From, 1), Config(To, 3), Config(Amount, 2);
      }
      count := Some(4);
    } else {
      count := InitStaking(vm, name, configs);
    }
  }

  lemma EmptyName(vm: Vm)
    ensures Configs(vm, []) == None
  {
  }

  /** The branches for the governance contract. */
  method InitStaking(vm: Vm, name: seq<byte>, configs: array<Config>) returns (count: Option<nat>)
    requires configs.Length == MAX_CONFIGS
    requires name != TRANSFER && name != APPROVE && name != TRANSFER_V2 && name != APPROVE_V2
    requires name != TRANSFER_FROM && name != TRANSFER_FROM_V2
    modifies configs
    ensures Planned(configs[..], count, Configs(vm, name))
  {
    if name == REGISTER_CANDIDATE || name == ADD_INIT_POS {
      configs[0], configs[1], configs[2] := Config(PeerPubkey, 1), Config(StakeAddress, 0), Config(StakeAmount, 2);
      count := Some(3);
    } else if name == QUIT_NODE {
      configs[0], configs[1] := Config(PeerPubkey, 1), Config(StakeAddress, 0);
      count := Some(2);
    } else if name == REDUCE_INIT_POS {
      configs[0], configs[1], configs[2] := Config(PeerPubkey, 1), Config(StakeAddress, 0), Config(Amount, 2);
      count := Some(3);
    } else if name == CHANGE_MAX_AUTH {
      configs[0], configs[1], configs[2] := Config(PeerPubkey, 1), Config(StakeAddress, 0), Config(MaxAuthorize, 2);
      count := Some(3);
    } else if name == SET_FEE_PERCENTAGE {
      configs[0], configs[1], configs[2], configs[3] :=
        Config(PeerPubkey, 1), Config(StakeAddress, 0), Config(PeerIncentive, 2), Config(UserIncentive, 3);
      count := Some(4);
    } else if name == AUTHORIZE_FOR_PEER || name == UNAUTHORIZE_FOR_PEER || name == WITHDRAW || name == WITHDRAW_FEE {
      configs[0] := Config(StakeAddress, 0);
      count := Some(1);
    } else {
      count := None;
    }
  }

  method ConvertParamToChars(base58: Base58, info: Info, b: seq<byte>, slots: array<Slot>, idx: nat)
    returns (ok: bool, text: string)
    requires AllIn(b, slots[..]) && |info.ticker| <= 20
    ensures ok == (idx < slots.Length && FieldText(base58, info, b, slots[idx]).Some?)
    ensures ok ==> text == FieldText(base58, info, b, slots[idx]).value
  {
    text := "";
    if idx >= slots.Length || slots[idx].NoSlot? {
      return false, text;
    }
    var param := slots[idx];
    assert InBytes(b, slots[..][idx]);
    match param.kind
    case AddrKind =>
      var r := base58(SlotBytes(b, param));
      ok := r.Some?;
      if ok {
        text := r.value;
      }
    case Uint128Kind => ok, text := AmountChars(info, b, param);
    case AmountKind => ok, text := AmountChars(info, b, param);
    case PubKeyKind =>
      ok := param.len < MAX_BUFFER_LEN;
      if ok {
        text := AsChars(SlotBytes(b, param));
      }
    case _ => ok := false;
  }

  method AmountChars(info: Info, b: seq<byte>, param: Slot) returns (ok: bool, text: string)
    requires InBytes(b, param) && |info.ticker| <= 20
    ensures var r := WithSuffix(info, ParamText(b, param, info.decimals, info.vm != WasmVm));
            ok == r.Some? && (ok ==> text == r.value)
  {
    text := "";
    var hasPrefix := info.vm != WasmVm;
    var buffer := new char[MAX_BUFFER_LEN](_ => '\0');
    ok := ConvertParamAmountToChars(b, param, info.decimals, hasPrefix, buffer);
    if ok {
      ParamU128Bound(b, param, hasPrefix);
      AmountTextLength(ParamU128(b, param, hasPrefix).value, info.decimals);
      var n := StrLen(buffer, ParamText(b, param, info.decimals, hasPrefix).value);
      text := buffer[..n];
      if info.name == SET_FEE_PERCENTAGE {
        text := Cat(text, "%", MAX_BUFFER_LEN);
      } else {
        text := Cat(text, " ", MAX_BUFFER_LEN);
        text := Cat(text, info.ticker, MAX_BUFFER_LEN);
      }
    }
  }

  /** The screen: at least as many entries and cells as a review can need. */
  predicate Roomy(t: Target, pairs: array<Pair>, cells: array<Content>) {
    pairs.Length == t.maxParams + 2 && cells.Length == t.maxParams + 3
  }

  /** Entries and cells from these positions on may have changed, others not. */
  twostate predicate Only(pairs: array<Pair>, cells: array<Content>, fromPair: nat, fromCell: nat, toCell: nat)
    reads pairs, cells
  {
    && (forall i :: 0 <= i < pairs.Length && i < fromPair ==> pairs[i] == old(pairs[i]))
    && (forall k :: 0 <= k < cells.Length && !(fromCell <= k < toCell) ==> cells[k] == old(cells[k]))
  }

  /** Parameters 0..n are on screen: captions are fixed, texts in their cells. */
  predicate Placed(pairs: seq<Pair>, cells: seq<Content>, configs: seq<Config>, fields: seq<Field>, base: nat, n: nat) {
    && n <= |configs| && n <= |fields|
    && forall j :: 0 <= j < n ==>
         && fields[j].text.Some?
         && base + configs[j].pos < |pairs| && base + j < |cells|
         && pairs[base + configs[j].pos] == Pair(Fixed(Caption(configs[j].item)), Cell(base + j))
         && cells[base + j] == Chars(fields[j].text.value)
  }

  lemma PlacedAll(pairs: seq<Pair>, cells: seq<Content>, configs: seq<Config>, fields: seq<Field>, base: nat)
    requires Permuted(configs) && |fields| == |configs| && base + |configs| <= |pairs|
    requires Placed(pairs, cells, configs, fields, base, |configs|)
    ensures Block(configs, fields).Some?
    ensures ShowsFrom(pairs, cells, base, base + |configs|, Block(configs, fields).value)
  {
    hide IndexAt;
    var want := Block(configs, fields).value;
    forall p | 0 <= p < |want|
      ensures ShowsAt(pairs[base + p], cells, base + |configs|, want[p])
    {
      var i := IndexAt(configs, p);
      assert configs[i].pos == p;
      assert pairs[base + configs[i].pos] == Pair(Fixed(Caption(configs[i].item)), Cell(base + i));
    }
  }

  lemma PlacedMore(pairs: seq<Pair>, cells: seq<Content>, configs: seq<Config>, fields: seq<Field>, base: nat, n: nat,
                   pairs': seq<Pair>, cells': seq<Content>)
    requires Permuted(configs) && |fields| == |configs| && n < |configs| && base + |configs| <= |pairs|
    requires base + |configs| <= |cells|
    requires Placed(pairs, cells, configs, fields, base, n) && fields[n].text.Some?
    requires pairs' == pairs[base + configs[n].pos := Pair(Fixed(Caption(configs[n].item)), Cell(base + n))]
    requires cells' == cells[base + n := Chars(fields[n].text.value)]
    ensures Placed(pairs', cells', configs, fields, base, n + 1)
  {
    hide IndexAt;
  }

  lemma BlockFails(configs: seq<Config>, fields: seq<Field>, i: nat)
    requires Permuted(configs) && i < |configs| && i < |fields| && fields[i].text.None?
    ensures Block(configs, fields).None?
  {
  }

  /** A block of configured parameters: parameter `base` + i goes to cell `base` + i and to the
      entry `base` + its position. */
  method ShowBlock(t: Target, base58: Base58, info: Info, b: seq<byte>, slots: array<Slot>, configs: seq<Config>,
                   base: nat,
                   pairs: array<Pair>, cells: array<Content>) returns (ok: bool)
    requires AllIn(b, slots[..]) && |info.ticker| <= 20 && Permuted(configs) && Roomy(t, pairs, cells)
    requires slots.Length == t.maxParams && base + |configs| <= slots.Length && AllIn(b, slots[base..base + |configs|])
    modifies pairs, cells
    ensures var fields := FieldsOf(base58, info, b, slots[base..base + |configs|]);
            ok == Block(configs, fields).Some?
    ensures var fields := FieldsOf(base58, info, b, slots[base..base + |configs|]);
            ok ==> ShowsFrom(pairs[..], cells[..], base, base + |configs|, Block(configs, fields).value)
    ensures Only(pairs, cells, base, base, base + |configs|)
  {
    ghost var fields := FieldsOf(base58, info, b, slots[base..base + |configs|]);
    hide FieldText, ParamU64, Block, IndexAt, Placed, ShowsFrom;
    var i := 0;
    StartPlaced(pairs[..], cells[..], configs, fields, base);
    while i < |configs|
      invariant i <= |configs|
      invariant Placed(pairs[..], cells[..], configs, fields, base, i)
      invariant Only(pairs, cells, base, base, base + |configs|)
    {
      var text;
      ghost var pairs0, cells0 := pairs[..], cells[..];
      assert fields[i] == FieldOf(base58, info, b, slots[base + i]);
      ok, text := ConvertParamToChars(base58, info, b, slots, base + i);
      if !ok {
        BlockFails(configs, fields, i);
        return;
      }
      cells[base + i] := Chars(text);
      pairs[base + configs[i].pos] := Pair(Fixed(Caption(configs[i].item)), Cell(base + i));
      PlacedMore(pairs0, cells0, configs, fields, base, i, pairs[..], cells[..]);
      i := i + 1;
    }
    PlacedAll(pairs[..], cells[..], configs, fields, base);
    ok := true;
  }

  lemma StartPlaced(pairs: seq<Pair>, cells: seq<Content>, configs: seq<Config>, fields: seq<Field>, base: nat)
    ensures Placed(pairs, cells, configs, fields, base, 0)
  {
  }

  /** One more entry, its caption in a cell of its own if it is numbered. */
  method AddEntry(pairs: array<Pair>, cells: array<Content>, nbPairs: nat, curr: nat, l: Label, i: nat, n: nat,
                  text: string,
                  ghost want: seq<Shown>) returns (nb: nat, next: nat)
    requires Shows(pairs[..], cells[..], curr, want) && |want| == nbPairs < pairs.Length && curr + 2 <= cells.Length
    requires i < n
    modifies pairs, cells
    ensures nb == nbPairs + 1 && curr <= next <= curr + 2
    ensures Shows(pairs[..], cells[..], next, want + [Shown(Counted(l, i, n), text)])
    ensures Only(pairs, cells, nbPairs, curr, next)
  {
    next := curr;
    ghost var pairs0, cells0 := pairs[..], cells[..];
    var item := Fixed(Caption(l));
    if !(i == 0 && n == 1) {
      cells[next] := Caption(Numbered(l, i + 1));
      item := Cell(next);
      next := next + 1;
    }
    cells[next] := Chars(text);
    pairs[nbPairs] := Pair(item, Cell(next));
    next := next + 1;
    nb := nbPairs + 1;
    ShowsKept(pairs0, cells0, pairs[..], cells[..], curr, next, want);
    ShowsMore(pairs[..], cells[..], next, want, Shown(Counted(l, i, n), text));
  }

  lemma {:induction false} KeyEntriesFail(name: seq<byte>, fields: seq<Field>, n: nat, m: nat, i: nat)
    requires i < m <= n && 2 + 2 * n <= |fields| && KeyEntry(name, fields, n, i).None?
    ensures KeyEntries(name, fields, n, m).None?
  {
    if i < m - 1 {
      KeyEntriesFail(name, fields, n, m - 1, i);
    }
  }

  lemma {:induction false} AmountSumFail(fields: seq<Field>, n: nat, m: nat, i: nat)
    requires i < m <= n && 2 + 2 * n <= |fields| && fields[2 + n + i].number.None?
    ensures AmountSum(fields, n, m).None?
  {
    if i < m - 1 {
      AmountSumFail(fields, n, m - 1, i);
    }
  }

  /** The slots hold `k` parameters and nothing behind them. */
  predicate Holds(slots: seq<Slot>, k: nat) {
    && k <= |slots|
    && (forall i :: 0 <= i < k ==> slots[i].Slot?)
    && (forall i :: k <= i < |slots| ==> slots[i].NoSlot?)
  }

  /** The entry, or the two entries, of key `i`. */
  method ShowKey(t: Target, base58: Base58, info: Info, b: seq<byte>, slots: array<Slot>, n: nat, i: nat,
                 pairs: array<Pair>, cells: array<Content>, nbPairs: nat, curr: nat, ghost want: seq<Shown>)
    returns (ok: bool, nb: nat, next: nat)
    requires AllIn(b, slots[..]) && |info.ticker| <= 20 && slots.Length == t.maxParams && Roomy(t, pairs, cells)
    requires i < n && 2 + 2 * n <= slots.Length
    requires Shows(pairs[..], cells[..], curr, want) && |want| == nbPairs && nbPairs + 2 <= pairs.Length
    requires curr + 4 <= t.maxParams
    modifies pairs, cells
    ensures var fields := FieldsOf(base58, info, b, slots[..2 + 2 * n]);
            var entry := KeyEntry(info.name, fields, n, i);
            && ok == entry.Some?
            && (ok ==> nb == nbPairs + |entry.value| && curr <= next <= curr + 4
                       && Shows(pairs[..], cells[..], next, want + entry.value))
    ensures Only(pairs, cells, nbPairs, curr, t.maxParams)
  {
    hide FieldText, ParamU64, Shows, ShowsAt;
    ghost var fields := FieldsOf(base58, info, b, slots[..2 + 2 * n]);
    assert fields[2 + i] == FieldOf(base58, info, b, slots[2 + i]);
    assert fields[2 + n + i] == FieldOf(base58, info, b, slots[2 + n + i]);
    nb, next := nbPairs, curr;
    var key;
    ok, key := ConvertParamToChars(base58, info, b, slots, i + 2);
    if !ok {
      return;
    }
    if n > MAX_PUBKEY_DISPLAY {
      nb, next := AddEntry(pairs, cells, nb, next, PeerPubkey, i, n, key, want);
      return;
    }
    nb, next := AddEntry(pairs, cells, nb, next, PeerPubkey, i, n, key, want);
    ghost var want1 := want + [Shown(Counted(PeerPubkey, i, n), key)];
    var amount;
    ok, amount := ConvertParamToChars(base58, info, b, slots, i + 2 + n);
    if !ok {
      return;
    }
    nb, next := AddEntry(pairs, cells, nb, next, StakeLabel(info.name), i, n, amount, want1);
    assert want1 + [Shown(Counted(StakeLabel(info.name), i, n), amount)] ==
      want + [Shown(Counted(PeerPubkey, i, n), key), Shown(Counted(StakeLabel(info.name), i, n), amount)];
  }

  /** The sum of the amounts, in 64-bit arithmetic. */
  method SumAmounts(t: Target, base58: Base58, info: Info, b: seq<byte>, slots: array<Slot>, n: nat)
    returns (ok: bool, amount: nat)
    requires AllIn(b, slots[..]) && 2 + 2 * n <= slots.Length
    ensures var r := AmountSum(FieldsOf(base58, info, b, slots[..2 + 2 * n]), n, n);
            ok == r.Some? && (ok ==> amount == r.value)
  {
    hide FieldText, ParamU64;
    ghost var fields := FieldsOf(base58, info, b, slots[..2 + 2 * n]);
    amount := 0;
    var i := 0;
    while i < n
      invariant i <= n && AmountSum(fields, n, i) == Some(amount)
    {
      var tmpAmount;
      assert fields[2 + n + i] == FieldOf(base58, info, b, slots[i + 2 + n]);
      assert InBytes(b, slots[..][i + 2 + n]);
      ok, tmpAmount := ConvertParamToUint64Le(b, slots[i + 2 + n]);
      if !ok {
        AmountSumFail(fields, n, n, i);
        return;
      }
      amount := (amount + tmpAmount) % U64;
      i := i + 1;
    }
    ok := true;
  }

  /** What the tables guarantee for the methods with a list of keys: the slots are an address, the
      number of keys, the keys and the amounts. */
  predicate StakeSlots(b: seq<byte>, slots: seq<Slot>, k: nat)
    requires AllIn(b, slots)
  {
    Holds(slots, k) && k >= 4 && ParamU64(b, slots[1]).Some? && k == 2 + 2 * ParamU64(b, slots[1]).value
  }

  lemma SumTextLength(sum: nat)
    requires sum < U64
    ensures |Digits(sum)| <= 20
  {
    assert Pow10(10) == 10_000_000_000 by {
      assert Pow10(5) == 100_000;
    }
    assert Pow10(15) == 100_000 * Pow10(10);
    assert Pow10(20) == 100_000 * Pow10(15);
    DigitsLength(sum, 20);
  }

  /** The two closing entries for more than three keys; the total has its own cell. */
  method ShowTotals(t: Target, info: Info, n: nat, sum: nat, pairs: array<Pair>, cells: array<Content>,
                    nbPairs: nat, curr: nat,
                    ghost want: seq<Shown>) returns (nb: nat)
    requires |info.ticker| <= 20 && Roomy(t, pairs, cells) && n > MAX_PUBKEY_DISPLAY && sum < U64
    requires Shows(pairs[..], cells[..], curr, want) && |want| == nbPairs && nbPairs + 2 <= pairs.Length &&
             curr < t.maxParams
    modifies pairs, cells
    ensures nb == nbPairs + 2
    ensures Shows(pairs[..], cells[..], t.maxParams + 1,
                  want + [Shown(NodeAmount, Digits(n - MAX_PUBKEY_DISPLAY)),
                          Shown(Total(StakeLabel(info.name)), Digits(sum) + " " + info.ticker)])
    ensures Only(pairs, cells, nbPairs, curr, t.maxParams + 1)
  {
    hide Digits;
    ghost var pairs0, cells0 := pairs[..], cells[..];
    cells[curr] := Chars(Digits(n - MAX_PUBKEY_DISPLAY));
    pairs[nbPairs] := Pair(Fixed(Caption(NodeAmount)), Cell(curr));
    SumTextLength(sum);
    var total := Cat(Digits(sum), " ", 50);
    total := Cat(total, info.ticker, 50);
    cells[t.maxParams] := Chars(total);
    pairs[nbPairs + 1] := Pair(Fixed(Caption(Total(StakeLabel(info.name)))), Cell(t.maxParams));
    nb := nbPairs + 2;
    var s1 := Shown(NodeAmount, Digits(n - MAX_PUBKEY_DISPLAY));
    var s2 := Shown(Total(StakeLabel(info.name)), Digits(sum) + " " + info.ticker);
    ShowsKept(pairs0, cells0, pairs[..], cells[..], curr, t.maxParams + 1, want);
    ShowsMore(pairs[..], cells[..], t.maxParams + 1, want, s1);
    ShowsMore(pairs[..], cells[..], t.maxParams + 1, want + [s1], s2);
    assert want + [s1] + [s2] == want + [s1, s2];
  }

  /** The keys of a staking call; at most three are shown. */
  method ShowKeys(t: Target, base58: Base58, info: Info, b: seq<byte>, slots: array<Slot>, n: nat, m: nat,
                  pairs: array<Pair>, cells: array<Content>, nbPairs: nat, first: nat, ghost want: seq<Shown>)
    returns (ok: bool, nb: nat, curr: nat)
    requires AllIn(b, slots[..]) && |info.ticker| <= 20 && slots.Length == t.maxParams && Roomy(t, pairs, cells)
    requires m <= n && m <= MAX_PUBKEY_DISPLAY && 2 + 2 * n <= slots.Length
    requires Shows(pairs[..], cells[..], first, want) && |want| == nbPairs <= 10 && first <= 10
    modifies pairs, cells
    ensures var fields := FieldsOf(base58, info, b, slots[..2 + 2 * n]);
            var entries := KeyEntries(info.name, fields, n, m);
            && ok == entries.Some?
            && (ok ==> nb == nbPairs + |entries.value| <= nbPairs + 6 && first <= curr <= first + 12
                       && Shows(pairs[..], cells[..], curr, want + entries.value))
    ensures Only(pairs, cells, nbPairs, first, t.maxParams)
  {
    hide FieldText, ParamU64, Shows, FieldsOf, KeyEntry;
    ghost var fields := FieldsOf(base58, info, b, slots[..2 + 2 * n]);
    ghost var entries: seq<Shown> := [];
    nb, curr := nbPairs, first;
    var i := 0;
    assert want + entries == want;
    while i < m
      invariant i <= m && KeyEntries(info.name, fields, n, i) == Some(entries)
      invariant nb == nbPairs + |entries| <= nbPairs + 2 * i && first <= curr <= first + 4 * i
      invariant Shows(pairs[..], cells[..], curr, want + entries)
      invariant Only(pairs, cells, nbPairs, first, t.maxParams)
    {
      ghost var entry := KeyEntry(info.name, fields, n, i);
      EntryLength(info.name, fields, n, i);
      ok, nb, curr := ShowKey(t, base58, info, b, slots, n, i, pairs, cells, nb, curr, want + entries);
      if !ok {
        KeyEntriesFail(info.name, fields, n, m, i);
        return;
      }
      assert want + entries + entry.value == want + (entries + entry.value);
      entries := entries + entry.value;
      i := i + 1;
    }
    ok := true;
  }

  lemma EntryLength(name: seq<byte>, fields: seq<Field>, n: nat, i: nat)
    requires i < n && 2 + 2 * n <= |fields|
    ensures var e := KeyEntry(name, fields, n, i); e.Some? ==> |e.value| <= 2
  {
  }

  /** The part of handle_params for calls with a list of keys. */
  method ShowStaking(t: Target, base58: Base58, info: Info, b: seq<byte>, slots: array<Slot>, ghost k: nat,
                     pairs: array<Pair>, cells: array<Content>, nbPairs: nat, ghost want: seq<Shown>)
    returns (ok: bool, nb: nat)
    requires AllIn(b, slots[..]) && |info.ticker| <= 20 && slots.Length == t.maxParams && Roomy(t, pairs, cells)
    requires StakeSlots(b, slots[..], k) && Shows(pairs[..], cells[..], nbPairs, want) && |want| == nbPairs <= 10
    modifies pairs, cells
    ensures var r := StakePlan(info, FieldsOf(base58, info, b, slots[..k]));
            && ok == r.Some?
            && (ok ==> nb == nbPairs + |r.value| <= nbPairs + 8
                       && Shows(pairs[..], cells[..], t.maxParams + 1, want + r.value))
    ensures Only(pairs, cells, nbPairs, nbPairs, t.maxParams + 1)
  {
    hide FieldText, ParamU64, Shows, KeyEntries, AmountSum, Digits;
    assert InBytes(b, slots[..][1]);
    nb := nbPairs;
    var n: nat;
    ok, n := ConvertParamToUint64Le(b, slots[1]);
    assert k == 2 + 2 * n;
    ghost var fields := FieldsOf(base58, info, b, slots[..k]);
    assert fields[1].number == ParamU64(b, slots[1]);
    var m := if n < MAX_PUBKEY_DISPLAY then n else MAX_PUBKEY_DISPLAY;
    var curr;
    ok, nb, curr := ShowKeys(t, base58, info, b, slots, n, m, pairs, cells, nb, nbPairs, want);
    if !ok {
      return;
    }
    ghost var entries := KeyEntries(info.name, fields, n, m).value;
    if n > MAX_PUBKEY_DISPLAY {
      var amount;
      ok, amount := SumAmounts(t, base58, info, b, slots, n);
      if !ok {
        return;
      }
      SumBound(fields, n, n);
      nb := ShowTotals(t, info, n, amount, pairs, cells, nb, curr, want + entries);
      ghost var last := [Shown(NodeAmount, Digits(n - MAX_PUBKEY_DISPLAY)),
                         Shown(Total(StakeLabel(info.name)), Digits(amount) + " " + info.ticker)];
      assert want + entries + last == want + (entries + last);
    } else {
      ShowsKept(pairs[..], cells[..], pairs[..], cells[..], curr, t.maxParams + 1, want + entries);
    }
  }

  lemma SumBound(fields: seq<Field>, n: nat, m: nat)
    requires m <= n && 2 + 2 * n <= |fields|
    ensures AmountSum(fields, n, m).Some? ==> AmountSum(fields, n, m).value < U64
  {
  }

  lemma BlocksStep(configs: seq<Config>, fields: seq<Field>)
    requires Permuted(configs) && |configs| == 3 && |fields| >= 3
    ensures Blocks(configs, fields) == Append(Block(configs, fields[..3]), Blocks(configs, fields[3..]))
  {
  }

  /** `done` are the blocks on screen, `rest` what follows. */
  predicate BlocksSoFar(configs: seq<Config>, all: seq<Field>, done: seq<Shown>, rest: seq<Field>)
    requires Permuted(configs) && |configs| == 3
  {
    Blocks(configs, all) == Append(Some(done), Blocks(configs, rest))
  }

  lemma BlocksAdvance(configs: seq<Config>, all: seq<Field>, done: seq<Shown>, rest: seq<Field>, next: seq<Field>,
                      behind: seq<Field>)
    requires Permuted(configs) && |configs| == 3 && BlocksSoFar(configs, all, done, rest)
    requires rest == next + behind && |next| == 3
    ensures var r := Block(configs, next);
            if r.None? then Blocks(configs, all).None?
            else BlocksSoFar(configs, all, done + r.value, behind)
  {
    hide Block, Blocks;
    BlocksStep(configs, rest);
    assert rest[..3] == next && rest[3..] == behind;
    var r, tail := Block(configs, next), Blocks(configs, behind);
    if r.Some? && tail.Some? {
      assert done + (r.value + tail.value) == done + r.value + tail.value;
    }
  }

  lemma BlocksEnd(configs: seq<Config>, all: seq<Field>, done: seq<Shown>)
    requires Permuted(configs) && |configs| == 3 && BlocksSoFar(configs, all, done, [])
    ensures Blocks(configs, all) == Some(done)
  {
    assert done + [] == done;
  }

  lemma BlocksBegin(configs: seq<Config>, all: seq<Field>)
    requires Permuted(configs) && |configs| == 3
    ensures BlocksSoFar(configs, all, [], all)
  {
    var r := Blocks(configs, all);
    if r.Some? {
      assert [] + r.value == r.value;
    }
  }

  /** Adding a block behind what is shown. */
  lemma ShowsBlock(pairs: seq<Pair>, cells: seq<Content>, pairs': seq<Pair>, cells': seq<Content>, limit: nat,
                   want: seq<Shown>, more: seq<Shown>)
    requires Shows(pairs, cells, limit, want) && |want| == limit
    requires |pairs| == |pairs'| && |cells| == |cells'|
    requires forall i :: 0 <= i < limit && i < |pairs| ==> pairs'[i] == pairs[i]
    requires forall i :: 0 <= i < limit && i < |cells| ==> cells'[i] == cells[i]
    requires ShowsFrom(pairs', cells', limit, limit + |more|, more)
    ensures Shows(pairs', cells', limit + |more|, want + more)
  {
    ShowsKept(pairs, cells, pairs', cells', limit, limit + |more|, want);
    forall i | 0 <= i < |want + more|
      ensures ShowsAt(pairs'[i], cells', limit + |more|, (want + more)[i])
    {
      if i >= limit {
        assert ShowsAt(pairs'[limit + (i - limit)], cells', limit + |more|, more[i - limit]);
      } else {
        assert ShowsAt(pairs'[i], cells', limit + |more|, want[i]);
      }
    }
  }

  lemma FieldsSlice(base58: Base58, info: Info, b: seq<byte>, slots: seq<Slot>, i: nat, j: nat)
    requires AllIn(b, slots) && i <= j <= |slots|
    ensures AllIn(b, slots[i..j]) && FieldsOf(base58, info, b, slots[i..j]) == FieldsOf(base58, info, b, slots)[i..j]
  {
    hide FieldOf;
  }

  /** The parameters from `base` on are those of the next block, then the others. */
  lemma NextFields(base58: Base58, info: Info, b: seq<byte>, slots: seq<Slot>, k: nat, base: nat)
    requires AllIn(b, slots) && base + 3 <= k <= |slots|
    ensures AllIn(b, slots[..k]) && AllIn(b, slots[base..base + 3])
    ensures var fields := FieldsOf(base58, info, b, slots[..k]);
            fields[base..] == FieldsOf(base58, info, b, slots[base..base + 3]) + fields[base + 3..]
  {
    PartOfIn(b, slots, k);
    FieldsSlice(base58, info, b, slots[..k], base, base + 3);
    assert slots[..k][base..base + 3] == slots[base..base + 3];
    hide FieldsOf;
    var fields := FieldsOf(base58, info, b, slots[..k]);
    assert fields[base..] == fields[base..base + 3] + fields[base + 3..];
  }

  /** The further transfers of a native list; the loop tests the bound before it looks at a slot. */
  method ShowTransfers(t: Target, base58: Base58, info: Info, b: seq<byte>, slots: array<Slot>, ghost k: nat,
                       configs: seq<Config>, pairs: array<Pair>, cells: array<Content>, nbPairs: nat,
                       ghost want: seq<Shown>)
    returns (ok: bool, nb: nat)
    requires AllIn(b, slots[..]) && |info.ticker| <= 20 && slots.Length == t.maxParams && Roomy(t, pairs, cells)
    requires Permuted(configs) && |configs| == 3 && Holds(slots[..], k) && k >= 3 && k % 3 == 0
    requires nbPairs == 3 == |want| && Shows(pairs[..], cells[..], 3, want)
    modifies pairs, cells
    ensures var r := Blocks(configs, FieldsOf(base58, info, b, slots[..k])[3..]);
            && ok == r.Some?
            && (ok ==> nb == 3 + |r.value| == k && Shows(pairs[..], cells[..], k, want + r.value))
    ensures Only(pairs, cells, 3, 3, t.maxParams)
  {
    hide FieldText, ParamU64, Shows, ShowsFrom, Block, Blocks, BlocksSoFar, FieldsOf, Permuted;
    ghost var fields := FieldsOf(base58, info, b, slots[..k]);
    ghost var done: seq<Shown> := [];
    nb := nbPairs;
    var stateNum := 1;
    BlocksBegin(configs, fields[3..]);
    assert want + done == want;
    while 3 * stateNum + 2 < t.maxParams && slots[3 * stateNum].Slot?
      invariant 1 <= stateNum && nb == 3 * stateNum == 3 + |done| <= k
      invariant BlocksSoFar(configs, fields[3..], done, fields[3 * stateNum..])
      invariant Shows(pairs[..], cells[..], nb, want + done)
      invariant Only(pairs, cells, 3, 3, t.maxParams)
      decreases t.maxParams - stateNum
    {
      assert slots[..][3 * stateNum].Slot?;
      var base := 3 * stateNum;
      ghost var pairs0, cells0 := pairs[..], cells[..];
      assert slots[..][..k] == slots[..k] && slots[..][base..base + 3] == slots[base..base + 3];
      NextFields(base58, info, b, slots[..], k, base);
      ghost var next := FieldsOf(base58, info, b, slots[base..base + 3]);
      BlocksAdvance(configs, fields[3..], done, fields[base..], next, fields[base + 3..]);
      ok := ShowBlock(t, base58, info, b, slots, configs, base, pairs, cells);
      if !ok {
        return;
      }
      ghost var more := Block(configs, next).value;
      ShowsBlock(pairs0, cells0, pairs[..], cells[..], base, want + done, more);
      assert want + done + more == want + (done + more);
      done := done + more;
      stateNum := stateNum + 1;
      nb := nb + 3;
    }
    EndOfList(slots[..], k, 3 * stateNum, t.maxParams);
    assert fields[k..] == [];
    BlocksEnd(configs, fields[3..], done);
    ok := true;
  }

  /** The test for an unused slot stops exactly behind the last stored parameter. */
  lemma EndOfList(slots: seq<Slot>, k: nat, at: nat, max: nat)
    requires Holds(slots, k) && at <= k && k % 3 == 0 && at % 3 == 0 && |slots| == max && max % 3 == 0
    requires !(at + 2 < max && slots[at].Slot?)
    ensures at == k
  {
  }

  /** What the tables guarantee about the stored parameters of a call. */
  predicate WellStored(info: Info, b: seq<byte>, slots: seq<Slot>, k: nat) {
    && AllIn(b, slots) && |info.ticker| <= 20 && Holds(slots, k)
    && (info.vm == NativeVm && IsStaking(info.name) ==> StakeSlots(b, slots, k))
    && (info.vm == NativeVm && IsTransfer(info.name) ==> k % 3 == 0)
  }

  lemma PartOfIn(b: seq<byte>, slots: seq<Slot>, k: nat)
    requires AllIn(b, slots) && k <= |slots|
    ensures AllIn(b, slots[..k])
  {
  }

  /** The first block only depends on the stored parameters. */
  lemma FirstBlock(base58: Base58, info: Info, b: seq<byte>, slots: seq<Slot>, k: nat, configs: seq<Config>)
    requires AllIn(b, slots) && Holds(slots, k) && Permuted(configs) && 0 < |configs| <= |slots|
    ensures AllIn(b, slots[..k]) && AllIn(b, slots[..|configs|])
    ensures Block(configs, FieldsOf(base58, info, b, slots[..k])) ==
            Block(configs, FieldsOf(base58, info, b, slots[..|configs|]))
  {
    hide IndexAt, ParamU64;
    PartOfIn(b, slots, k);
    PartOfIn(b, slots, |configs|);
    var stored, first := FieldsOf(base58, info, b, slots[..k]), FieldsOf(base58, info, b, slots[..|configs|]);
    if k < |configs| {
      assert first[k].text.None?;
      BlockFails(configs, first, k);
    } else {
      forall i | 0 <= i < |configs|
        ensures stored[i] == first[i]
      {
      }
      BlockPrefix(configs, stored, first);
    }
  }

  lemma BlockPrefix(configs: seq<Config>, fields: seq<Field>, first: seq<Field>)
    requires Permuted(configs) && |first| == |configs| <= |fields|
    requires forall i :: 0 <= i < |configs| ==> fields[i] == first[i]
    ensures Block(configs, fields) == Block(configs, first)
  {
    hide IndexAt;
    var x, y := Block(configs, fields), Block(configs, first);
    if x.Some? && y.Some? {
      assert x.value == y.value;
    }
  }

  lemma TransferConfigs(vm: Vm, name: seq<byte>)
    requires IsTransfer(name)
    ensures Configs(vm, name).Some? && |Configs(vm, name).value| == 3
  {
  }

  lemma StakeConfigs(vm: Vm, name: seq<byte>)
    requires IsStaking(name)
    ensures Configs(vm, name).Some? && |Configs(vm, name).value| == 1 && !IsTransfer(name) && name != REGISTER_CANDIDATE
  {
    assert AUTHORIZE_FOR_PEER[0] == 0x61 && UNAUTHORIZE_FOR_PEER[0] == 0x75 && WITHDRAW[0] == 0x77;
    assert TRANSFER[0] == 0x74 && TRANSFER_V2[0] == 0x74 && REGISTER_CANDIDATE[0] == 0x72 && WITHDRAW_FEE[0] == 0x77;
  }

  /** handle_params: the entries shown are exactly those of the plan, and each still shows its own
      text when all are written. */
  method HandleParams(t: Target, base58: Base58, info: Info, b: seq<byte>, slots: array<Slot>, ghost k: nat,
                      configs: seq<Config>,
                      pairs: array<Pair>, cells: array<Content>) returns (ok: bool, nbPairs: nat)
    requires slots.Length == t.maxParams && WellStored(info, b, slots[..], k) && Roomy(t, pairs, cells)
    requires Configs(info.vm, info.name) == Some(configs) && AllIn(b, slots[..k])
    modifies pairs, cells
    ensures var r := Plan(info, FieldsOf(base58, info, b, slots[..k]));
            && ok == r.Some?
            && (ok ==> nbPairs == |r.value| && Shows(pairs[..], cells[..], t.maxParams + 1, r.value))
    ensures Only(pairs, cells, 0, 0, t.maxParams + 1)
  {
    hide FieldText, ParamU64, Shows, Block, Blocks, FieldsOf, Permuted, Configs, StakePlan, ShowsFrom;
    ConfigsPermuted(info.vm, info.name);
    FirstBlock(base58, info, b, slots[..], k, configs);
    ghost var fields := FieldsOf(base58, info, b, slots[..k]);
    assert slots[..][..k] == slots[..k] && slots[..][..|configs|] == slots[0..|configs|];
    ghost var pairs0, cells0 := pairs[..], cells[..];
    NothingShown(pairs0, cells0);
    nbPairs := |configs|;
    ok := ShowBlock(t, base58, info, b, slots, configs, 0, pairs, cells);
    if !ok {
      return;
    }
    ghost var first := Block(configs, fields).value;
    ShowsBlock(pairs0, cells0, pairs[..], cells[..], 0, [], first);
    assert [] + first == first;
    ShowsKept(pairs[..], cells[..], pairs[..], cells[..], nbPairs, t.maxParams + 1, first);
    if info.vm != NativeVm {
      return;
    }
    if info.name == REGISTER_CANDIDATE {
      nbPairs := ShowStakeFee(t, pairs, cells, nbPairs, first);
    } else if IsStaking(info.name) {
      ok, nbPairs := ShowStaking(t, base58, info, b, slots, k, pairs, cells, nbPairs, first);
    } else if IsTransfer(info.name) {
      TransferConfigs(info.vm, info.name);
      BlockNeeds(configs, fields);
      ok, nbPairs := ShowTransfers(t, base58, info, b, slots, k, configs, pairs, cells, nbPairs, first);
      if ok {
        ShowsKept(pairs[..], cells[..], pairs[..], cells[..], k, t.maxParams + 1,
                  first + Blocks(configs, fields[3..]).value);
      }
    }
  }

  lemma BlockNeeds(configs: seq<Config>, fields: seq<Field>)
    requires Permuted(configs) && Block(configs, fields).Some?
    ensures |configs| <= |fields|
  {
  }

  lemma NothingShown(pairs: seq<Pair>, cells: seq<Content>)
    ensures Shows(pairs, cells, 0, [])
  {
  }

  /** Registering a candidate also shows the fixed staking fee. */
  method ShowStakeFee(t: Target, pairs: array<Pair>, cells: array<Content>, nbPairs: nat, ghost want: seq<Shown>)
    returns (nb: nat)
    requires Roomy(t, pairs, cells) && Shows(pairs[..], cells[..], nbPairs, want) && |want| == nbPairs <= 4
    modifies pairs
    ensures nb == nbPairs + 1 && Shows(pairs[..], cells[..], t.maxParams + 1, want + [Shown(StakeFee, "500 ONG")])
    ensures Only(pairs, cells, nbPairs, 0, 0)
  {
    ghost var pairs0 := pairs[..];
    pairs[nbPairs] := Pair(Fixed(Caption(StakeFee)), Fixed(Chars("500 ONG")));
    nb := nbPairs + 1;
    ShowsKept(pairs0, cells[..], pairs[..], cells[..], nbPairs, t.maxParams + 1, want);
    ShowsMore(pairs[..], cells[..], t.maxParams + 1, want, Shown(StakeFee, "500 ONG"));
  }
}
