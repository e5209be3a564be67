/**
 What a staking review shows. In a native call: for up to three peers every key with its own amount;
 for more, the first three keys, how many more there are, and the total. In any other virtual
 machine: the stake address alone.
 */
module StakingLaws {
  import opened Options
  import opened Bytes
  import opened TxTypes
  import opened Contracts
  import G = Grammar
  import opened Decimal
  import opened StoredFields
  import opened DisplayPlan
  import opened Display
  import opened DisplayLaws

  // ----- the tables

  lemma StakingNames(name: seq<byte>)
    requires IsStaking(name)
    ensures name[0] == 0x61 ==> |name| == 16
    ensures name[0] == 0x77 ==> |name| == 8
    ensures name[0] == 0x61 || name[0] == 0x75 || name[0] == 0x77
  {
  }

  /** No token has a staking method. */
  lemma NoTokenStakes(methods: seq<MethodSig>, name: seq<byte>)
    requires methods == NATIVE_TOKEN_METHODS || methods == NEOVM_OEP4_METHODS || methods == WASMVM_OEP4_METHODS
    requires IsStaking(name)
    ensures FindMethod(methods, name, 0) == None
  {
    StakingNames(name);
    TokenNames();
    MethodFound(methods, name, 0);
  }

  predicate TokenName(name: seq<byte>) {
    |name| > 0 && (name[0] == 0x74 || (name[0] == 0x61 && |name| < 16))
  }

  lemma TokenNames()
    ensures forall j :: 0 <= j < |NATIVE_TOKEN_METHODS| ==> TokenName(NATIVE_TOKEN_METHODS[j].name)
    ensures forall j :: 0 <= j < |NEOVM_OEP4_METHODS| ==> TokenName(NEOVM_OEP4_METHODS[j].name)
    ensures forall j :: 0 <= j < |WASMVM_OEP4_METHODS| ==> TokenName(WASMVM_OEP4_METHODS[j].name)
  {
  }

  /** The staking methods take an address and a list of keys with amounts. */
  lemma StakingKinds(addr: seq<byte>, name: seq<byte>)
    requires IsStaking(name) && Lookup(addr, name).Some?
    ensures addr == GOV_ADDR && Lookup(addr, name).value.kinds == [AddrKind, PkAmountPairsKind]
  {
    ContractFound(addr, 0);
    var c := FindContract(addr, 0).value;
    if c.methods != GOVERNANCE_METHODS {
      NoTokenStakes(c.methods, name);
    } else {
      GovernanceStakes(name);
    }
  }

  lemma GovernanceStakes(name: seq<byte>)
    requires IsStaking(name)
    ensures FindMethod(GOVERNANCE_METHODS, name, 0) == Some([AddrKind, PkAmountPairsKind])
  {
    StakingNames(name);
    var r := FindMethod(GOVERNANCE_METHODS, name, 0);
    OtherGovernanceNames();
    MethodFound(GOVERNANCE_METHODS, name, 0);
    if r.Some? {
      var j :| 0 <= j < |GOVERNANCE_METHODS| && GOVERNANCE_METHODS[j] == MethodSig(name, r.value);
      assert 6 <= j < 9;
    }
    StakesFound(name, 0);
  }

  lemma {:induction false} StakesFound(name: seq<byte>, j: nat)
    requires IsStaking(name) && j <= 6
    ensures FindMethod(GOVERNANCE_METHODS, name, j).Some?
    decreases 6 - j
  {
    if j < 6 {
      StakesFound(name, j + 1);
    } else {
      assert FindMethod(GOVERNANCE_METHODS, name, 8).Some? || name != WITHDRAW;
      assert FindMethod(GOVERNANCE_METHODS, name, 7).Some?  || name == AUTHORIZE_FOR_PEER;
    }
  }

  lemma OtherGovernanceNames()
    ensures forall j :: 0 <= j < 6 ==> !IsStaking(GOVERNANCE_METHODS[j].name)
    ensures !IsStaking(GOVERNANCE_METHODS[9].name)
  {
    assert WITHDRAW_FEE[0] == 0x77 && |WITHDRAW_FEE| == 11;
    assert REGISTER_CANDIDATE[0] == 0x72 && QUIT_NODE[0] == 0x71 && REDUCE_INIT_POS[0] == 0x72 &&
      CHANGE_MAX_AUTH[0] == 0x63
      && SET_FEE_PERCENTAGE[0] == 0x73;
    assert ADD_INIT_POS[0] == 0x61 && |ADD_INIT_POS| == 10;
    forall j | 0 <= j < 6 || j == 9
      ensures !IsStaking(GOVERNANCE_METHODS[j].name)
    {
      var n := GOVERNANCE_METHODS[j].name;
      if IsStaking(n) {
        StakingNames(n);
      }
    }
  }

  // ----- the stored parameters

  lemma {:induction false} KeyItem(ks: seq<seq<byte>>, i: nat)
    requires i < |ks|
    ensures KeysContents(ks)[i] == Item(PubKeyKind, ks[i])
  {
    if i > 0 {
      KeyItem(ks[1..], i - 1);
    }
  }

  lemma {:induction false} StakedItem(xs: seq<G.Amount>, i: nat)
    requires i < |xs|
    ensures AmountsContents(xs)[i] == AmountItem(xs[i])
  {
    if i > 0 {
      StakedItem(xs[1..], i - 1);
    }
  }

  /** The stake address and the peers of a staking call. */
  datatype Stake = Stake(hash: seq<byte>, keys: seq<seq<byte>>, amounts: seq<G.Amount>)

  /** A staking call: an address, then keys with amounts. */
  predicate Stakes(tx: G.Tx) {
    var args := ArgsOf(tx.payload);
    && !tx.payload.TransferList? && IsStaking(tx.payload.call.name)
    && |args| == 2 && args[0].Addr? && args[1].Pairs? && |args[1].keys| == |args[1].amounts|
  }

  function StakeIn(tx: G.Tx): (s: Stake)
    requires Stakes(tx)
    ensures |s.keys| == |s.amounts|
  {
    var args := ArgsOf(tx.payload);
    Stake(args[0].hash, args[1].keys, args[1].amounts)
  }

  predicate StakeOk(t: Target, s: Stake) {
    && |s.hash| == 20 && 1 <= |s.keys| == |s.amounts| && 2 + 2 * |s.keys| <= t.maxParams
    && G.KeysOk(s.keys) && G.AmountsOk(s.amounts)
  }

  /** Every well-formed call of a staking method is of that form, in whatever virtual machine. */
  lemma StakeOf(t: Target, tx: G.Tx)
    requires G.TxOk(t, tx) && IsStaking(tx.payload.call.name)
    ensures Stakes(tx) && StakeOk(t, StakeIn(tx)) && tx.payload.call.addr == GOV_ADDR
    ensures G.Counts(ArgsOf(tx.payload)[1].count, |StakeIn(tx).keys|)
  {
    hide G.PrintTx, G.PrintPayload, G.Counts, G.KeysOk, G.AmountsOk, IsStaking, Lookup, IsToken, IsTransfer;
    var call, args := tx.payload.call, ArgsOf(tx.payload);
    NoTransferStakes(t, tx);
    CallArgs(t, tx);
    StakingKinds(call.addr, call.name);
    assert G.KindOf(args[0]) == AddrKind;
    assert G.ArgsOk(t, [PkAmountPairsKind], args[1..], 1);
    assert G.KindOf(args[1]) == PkAmountPairsKind;
  }

  lemma NoTransferStakes(t: Target, tx: G.Tx)
    requires G.TxOk(t, tx) && IsStaking(tx.payload.call.name)
    ensures !tx.payload.TransferList?
  {
    hide G.PrintTx, G.PrintPayload, G.SizeOk, IsStaking;
    if IsTransfer(tx.payload.call.name) {
      NotStaking(tx.payload.call.name);
    }
  }

  /** What the display knows about a staking call. */
  predicate StakeFields(base58: Base58, info: Info, s: Stake, fields: seq<Field>) {
    var n := |s.keys|;
    && |s.amounts| == n && |fields| == 2 + 2 * n
    && fields[0] == AddrField(base58, s.hash)
    && fields[1].number == Some(n)
    && (forall i :: 0 <= i < n ==> fields[2 + i] == KeyField(s.keys[i]))
    && (forall i :: 0 <= i < n ==> fields[2 + n + i] == AmountField(info, s.amounts[i]))
  }

  /** The items of a staking call, in order. */
  lemma StakeItems(tx: G.Tx)
    requires Stakes(tx)
    ensures var s := StakeIn(tx);
            Contents(tx.payload) ==
            [Item(AddrKind, s.hash), AmountItem(ArgsOf(tx.payload)[1].count)] +
            (KeysContents(s.keys) + AmountsContents(s.amounts))
  {
    hide AmountItem, KeysContents, AmountsContents, IsStaking;
    var args := ArgsOf(tx.payload);
    assert ArgsContents(args[1..]) == ValueContents(args[1]);
    assert ArgsContents(args) == ValueContents(args[0]) + ValueContents(args[1]);
  }

  lemma StakeContents(base58: Base58, info: Info, t: Target, tx: G.Tx)
    requires G.TxOk(t, tx) && IsStaking(tx.payload.call.name)
    ensures Stakes(tx) && |StakeIn(tx).keys| > 0
    ensures StakeFields(base58, info, StakeIn(tx), ItemFields(base58, info, Contents(tx.payload)))
  {
    hide G.TxOk, IsStaking, Contents, ItemFields, StakeFields, StakeIn, G.Counts;
    StakeOf(t, tx);
    StakeItems(tx);
    FieldsOfStake(base58, info, t, StakeIn(tx), ArgsOf(tx.payload)[1].count);
  }

  lemma FieldsOfStake(base58: Base58, info: Info, t: Target, s: Stake, count: G.Amount)
    requires StakeOk(t, s) && G.Counts(count, |s.keys|)
    ensures var peers := KeysContents(s.keys) + AmountsContents(s.amounts);
            var items := [Item(AddrKind, s.hash), AmountItem(count)] + peers;
            StakeFields(base58, info, s, ItemFields(base58, info, items))
  {
    hide ItemField, KeyField, AmountField, AddrField, AmountItem, KeysContents, AmountsContents, G.Counts;
    var items := [Item(AddrKind, s.hash), AmountItem(count)] + (KeysContents(s.keys) + AmountsContents(s.amounts));
    var n := |s.keys|;
    AddrItemField(base58, info, s.hash);
    CountField(base58, info, count, n);
    forall i | 0 <= i < n
      ensures ItemField(base58, info, items[2 + i]) == KeyField(s.keys[i])
    {
      KeyItem(s.keys, i);
      KeyItemField(base58, info, s.keys[i]);
    }
    forall i | 0 <= i < n
      ensures ItemField(base58, info, items[2 + n + i]) == AmountField(info, s.amounts[i])
    {
      StakedItem(s.amounts, i);
      AmountItemField(base58, info, s.amounts[i]);
    }
  }

  lemma CountField(base58: Base58, info: Info, count: G.Amount, n: nat)
    requires G.Counts(count, n)
    ensures ItemField(base58, info, AmountItem(count)).number == Some(n)
  {
    AmountItemField(base58, info, count);
  }

  // ----- what is shown

  /** The sum of the first `m` amounts. */
  function Sum(xs: seq<G.Amount>, m: nat): nat
    requires m <= |xs|
  {
    if m == 0 then 0 else Sum(xs, m - 1) + G.AmountValue(xs[m - 1])
  }

  /** The display adds 64-bit numbers. */
  predicate Summable(xs: seq<G.Amount>) {
    forall i :: 0 <= i < |xs| ==> xs[i].Prefixed? ==> |xs[i].raw| <= 8
  }

  lemma {:induction false} SumShown(base58: Base58, info: Info, s: Stake, fields: seq<Field>, m: nat)
    requires StakeFields(base58, info, s, fields) && m <= |s.keys|
    ensures var r := AmountSum(fields, |s.keys|, m);
            r == if Summable(s.amounts[..m]) then Some(Sum(s.amounts, m) % U64) else None
  {
    hide AmountShown, G.AmountValue;
    if m > 0 {
      SumShown(base58, info, s, fields, m - 1);
      var n := |s.keys|;
      assert fields[2 + n + (m - 1)] == AmountField(info, s.amounts[m - 1]);
      assert s.amounts[..m] == s.amounts[..m - 1] + [s.amounts[m - 1]];
      AddInWord(Sum(s.amounts, m - 1), G.AmountValue(s.amounts[m - 1]));
    }
  }

  lemma AddInWord(x: nat, y: nat)
    ensures (x % U64 + y) % U64 == (x + y) % U64
  {
  }

  /** The entry every review of a staking call starts with. */
  function StakeAddressRow(base58: Base58, s: Stake): Option<seq<Shown>> {
    var at := base58(s.hash);
    if at.None? then None else Some([Shown(StakeAddress, at.value)])
  }

  /** In a native call the peers follow; elsewhere there is nothing else. */
  lemma StakePlanOf(base58: Base58, info: Info, s: Stake, fields: seq<Field>)
    requires IsStaking(info.name) && StakeFields(base58, info, s, fields)
    ensures Plan(info, fields) ==
            if info.vm == NativeVm then Append(StakeAddressRow(base58, s), StakePlan(info, fields))
            else StakeAddressRow(base58, s)
  {
    hide StakePlan, Permuted;
    var c := [Config(StakeAddress, 0)];
    StakeConfigs(info.vm, info.name);
    ConfigsPermuted(info.vm, info.name);
    assert Configs(info.vm, info.name) == Some(c);
    hide IsStaking, IsTransfer, Configs;
    BlockNone(c, fields);
    assert IndexAt(c, 0) == 0;
    hide Block;
    if Block(c, fields).Some? {
      BlockEntry(c, fields, 0);
      assert Block(c, fields).value == [Shown(StakeAddress, base58(s.hash).value)];
    }
  }

  /** Up to three peers: each key, directly followed by its own amount. */
  predicate ShowsPeers(info: Info, s: Stake, m: nat, rows: seq<Shown>)
    requires |s.keys| == |s.amounts| && m <= |s.keys|
  {
    var n := |s.keys|;
    && |rows| == 2 * m
    && forall i :: 0 <= i < m ==>
         && rows[2 * i] == Shown(Counted(PeerPubkey, i, n), AsChars(s.keys[i]))
         && AmountShown(info, s.amounts[i]).Some?
         && rows[2 * i + 1] == Shown(Counted(StakeLabel(info.name), i, n), AmountShown(info, s.amounts[i]).value)
  }

  /** The two entries of one peer. */
  lemma PeerShown(base58: Base58, info: Info, s: Stake, fields: seq<Field>, i: nat)
    requires info.vm == NativeVm && info.decimals <= 39 && StakeFields(base58, info, s, fields)
    requires i < |s.keys| <= MAX_PUBKEY_DISPLAY
    ensures var n := |s.keys|;
            && AmountShown(info, s.amounts[i]).Some?
            && KeyEntry(info.name, fields, n, i) == Some([
                 Shown(Counted(PeerPubkey, i, n), AsChars(s.keys[i])),
                 Shown(Counted(StakeLabel(info.name), i, n), AmountShown(info, s.amounts[i]).value)])
  {
    hide AmountText, Counted, StakeLabel;
    var n := |s.keys|;
    assert fields[2 + i] == KeyField(s.keys[i]);
    assert fields[2 + n + i] == AmountField(info, s.amounts[i]);
  }

  lemma {:induction false} PeersShown(base58: Base58, info: Info, s: Stake, fields: seq<Field>, m: nat)
    requires info.vm == NativeVm && info.decimals <= 39 && StakeFields(base58, info, s, fields)
    requires m <= |s.keys| <= MAX_PUBKEY_DISPLAY
    ensures var r := KeyEntries(info.name, fields, |s.keys|, m); r.Some? && ShowsPeers(info, s, m, r.value)
  {
    hide AmountShown, Counted, StakeLabel, KeyEntry, AsChars;
    if m > 0 {
      PeersShown(base58, info, s, fields, m - 1);
      PeerShown(base58, info, s, fields, m - 1);
    }
  }

  /** More than three peers: their first keys. */
  predicate ShowsKeys(s: Stake, m: nat, rows: seq<Shown>)
    requires m <= |s.keys|
  {
    && |rows| == m
    && forall i :: 0 <= i < m ==> rows[i] == Shown(Numbered(PeerPubkey, i + 1), AsChars(s.keys[i]))
  }

  lemma {:induction false} KeysShown(base58: Base58, info: Info, s: Stake, fields: seq<Field>, m: nat)
    requires StakeFields(base58, info, s, fields) && m <= |s.keys| && |s.keys| > MAX_PUBKEY_DISPLAY
    ensures var r := KeyEntries(info.name, fields, |s.keys|, m); r.Some? && ShowsKeys(s, m, r.value)
  {
    hide AmountField;
    if m > 0 {
      KeysShown(base58, info, s, fields, m - 1);
      assert fields[2 + (m - 1)] == KeyField(s.keys[m - 1]);
    }
  }

  /** The rows show the stake address, and either every key with its amount, or the first three keys,
      how many more there are, and `total`. */
  predicate StakeRows(base58: Base58, info: Info, s: Stake, total: nat, rows: seq<Shown>)
    requires |s.keys| == |s.amounts|
  {
    var n, at := |s.keys|, base58(s.hash);
    && at.Some? && |rows| > 0 && rows[0] == Shown(StakeAddress, at.value)
    && (n <= MAX_PUBKEY_DISPLAY ==> ShowsPeers(info, s, n, rows[1..]))
    && (n > MAX_PUBKEY_DISPLAY ==>
          && |rows| == 6
          && ShowsKeys(s, 3, rows[1..4])
          && rows[4] == Shown(NodeAmount, Digits(n - 3))
          && rows[5] == Shown(Total(StakeLabel(info.name)), Digits(total) + " " + info.ticker))
  }

  /** The rows show the stake with the true total of all amounts. */
  predicate WholeStake(base58: Base58, info: Info, s: Stake, rows: seq<Shown>)
    requires |s.keys| == |s.amounts|
  {
    StakeRows(base58, info, s, Sum(s.amounts, |s.amounts|), rows)
  }

  /** All amounts are shown, or their sum fits in the 64 bits it is computed in. */
  predicate TotalFits(s: Stake) {
    |s.keys| <= MAX_PUBKEY_DISPLAY || Sum(s.amounts, |s.amounts|) < U64
  }

  /** The review of a native staking call; None if there is none. */
  predicate StakeReview(base58: Base58, info: Info, s: Stake, shown: Option<seq<Shown>>)
    requires |s.keys| == |s.amounts|
  {
    && (shown.Some? <==> base58(s.hash).Some? && (|s.keys| <= MAX_PUBKEY_DISPLAY || Summable(s.amounts)))
    && (shown.Some? ==> StakeRows(base58, info, s, Sum(s.amounts, |s.amounts|) % U64, shown.value))
  }

  lemma StakeReviewOf(base58: Base58, info: Info, s: Stake, fields: seq<Field>)
    requires info.vm == NativeVm && info.decimals <= 39 && IsStaking(info.name)
    requires StakeFields(base58, info, s, fields) && |s.keys| > 0
    ensures StakeReview(base58, info, s, Plan(info, fields))
  {
    hide Plan, IsStaking, StakeFields, Digits, StakeLabel, ShowsPeers, ShowsKeys, KeyEntries, AmountSum, Summable, Sum;
    StakePlanOf(base58, info, s, fields);
    StakeSize(base58, info, s, fields);
    var n := |s.keys|;
    var at, rest := base58(s.hash), StakePlan(info, fields);
    if n <= MAX_PUBKEY_DISPLAY {
      PeersShown(base58, info, s, fields, n);
      if at.Some? {
        assert ([Shown(StakeAddress, at.value)] + rest.value)[1..] == rest.value;
      }
    } else {
      KeysShown(base58, info, s, fields, 3);
      KeyRowsLength(s, 3, KeyEntries(info.name, fields, n, 3).value);
      SumShown(base58, info, s, fields, n);
      assert s.amounts[..n] == s.amounts;
      if at.Some? && rest.Some? {
        assert ([Shown(StakeAddress, at.value)] + rest.value)[1..4] == KeyEntries(info.name, fields, n, 3).value;
      }
    }
  }

  lemma KeyRowsLength(s: Stake, m: nat, rows: seq<Shown>)
    requires m <= |s.keys| && ShowsKeys(s, m, rows)
    ensures |rows| == m
  {
  }

  lemma StakeSize(base58: Base58, info: Info, s: Stake, fields: seq<Field>)
    requires StakeFields(base58, info, s, fields)
    ensures |fields| == 2 + 2 * |s.keys| && fields[1].number == Some(|s.keys|) && |s.keys| == |s.amounts|
  {
  }

  lemma GovernanceInfo(tx: G.Tx)
    requires tx.payload.call.addr == GOV_ADDR
    ensures var info := InfoOf(tx); info.vm == NativeVm ==> info.decimals == 0
    ensures InfoOf(tx).ticker == "ONT"
  {
  }

  /** Every well-formed staking call: a native one is reviewed as described, and any other with its
      stake address alone. */
  lemma StakingShown(t: Target, base58: Base58, tx: G.Tx)
    requires G.TxOk(t, tx) && IsStaking(tx.payload.call.name)
    ensures Stakes(tx) && |StakeIn(tx).keys| > 0
    ensures if tx.payload.NativeCall? then StakeReview(base58, InfoOf(tx), StakeIn(tx), Reviewed(base58, tx))
            else Reviewed(base58, tx) == StakeAddressRow(base58, StakeIn(tx))
  {
    hide Plan, StakeReview, StakeFields, Lookup, ItemFields, Contents, G.TxOk;
    StakeOf(t, tx);
    GovernanceInfo(tx);
    StakeContents(base58, InfoOf(tx), t, tx);
    var fields := ItemFields(base58, InfoOf(tx), Contents(tx.payload));
    StakePlanOf(base58, InfoOf(tx), StakeIn(tx), fields);
    if tx.payload.NativeCall? {
      StakeReviewOf(base58, InfoOf(tx), StakeIn(tx), fields);
    }
  }

  /** Of a stake with rows for `total`, rows for another number are something else. */
  lemma OneTotal(base58: Base58, info: Info, s: Stake, total: nat, other: nat, rows: seq<Shown>)
    requires |s.keys| == |s.amounts| && StakeRows(base58, info, s, total, rows)
    ensures StakeRows(base58, info, s, other, rows) <==> |s.keys| <= MAX_PUBKEY_DISPLAY || total == other
  {
    hide Digits, ShowsKeys, ShowsPeers;
    DigitsDiffer(total, other);
    SamePrefix(Digits(total), Digits(other), " " + info.ticker);
    assert Digits(total) + " " + info.ticker == Digits(total) + (" " + info.ticker);
    assert Digits(other) + " " + info.ticker == Digits(other) + (" " + info.ticker);
  }

  /** The stake address with all keys and amounts, or with three keys and the true total, is shown if
      and only if the call is native and a total that is shown fits in 64 bits. */
  lemma StakeShownInFull(t: Target, base58: Base58, tx: G.Tx)
    requires G.TxOk(t, tx) && IsStaking(tx.payload.call.name) && Reviewed(base58, tx).Some?
    ensures Stakes(tx)
    ensures WholeStake(base58, InfoOf(tx), StakeIn(tx), Reviewed(base58, tx).value) <==>
            tx.payload.NativeCall? && TotalFits(StakeIn(tx))
  {
    hide Reviewed, G.TxOk, IsStaking, StakeIn, Sum, StakeRows, InfoOf;
    StakingShown(t, base58, tx);
    var s, rows := StakeIn(tx), Reviewed(base58, tx).value;
    var sum := Sum(s.amounts, |s.amounts|);
    if tx.payload.NativeCall? {
      OneTotal(base58, InfoOf(tx), s, sum % U64, sum, rows);
    } else {
      MoreThanOneRow(base58, InfoOf(tx), s, sum, rows);
    }
  }

  lemma MoreThanOneRow(base58: Base58, info: Info, s: Stake, total: nat, rows: seq<Shown>)
    requires 0 < |s.keys| == |s.amounts|
    ensures StakeRows(base58, info, s, total, rows) ==> |rows| > 1
  {
  }

  lemma DigitsDiffer(m: nat, n: nat)
    ensures Digits(m) == Digits(n) <==> m == n
  {
    DigitsRead(m);
    DigitsRead(n);
  }

  /** In the review of a native call with more than three peers, the last row shows the sum of all
      amounts if and only if that sum fits in 64 bits. */
  lemma TotalExact(t: Target, base58: Base58, tx: G.Tx)
    requires G.TxOk(t, tx) && tx.payload.NativeCall? && IsStaking(tx.payload.call.name) && Reviewed(base58, tx).Some?
    ensures Stakes(tx)
    ensures var amounts, rows := StakeIn(tx).amounts, Reviewed(base58, tx).value;
            var sum := Sum(amounts, |amounts|);
            |amounts| > MAX_PUBKEY_DISPLAY ==>
              && |rows| == 6
              && (rows[5].text == Digits(sum) + " " + InfoOf(tx).ticker <==> sum < U64)
  {
    hide Reviewed, G.TxOk, IsStaking, ShowsKeys, Digits, Sum, StakeIn;
    StakingShown(t, base58, tx);
    var amounts := StakeIn(tx).amounts;
    var sum, behind := Sum(amounts, |amounts|), " " + InfoOf(tx).ticker;
    DigitsDiffer(sum % U64, sum);
    SamePrefix(Digits(sum % U64), Digits(sum), behind);
    if |amounts| > MAX_PUBKEY_DISPLAY {
      assert Reviewed(base58, tx).value[5].text == Digits(sum % U64) + behind;
      assert Digits(sum) + " " + InfoOf(tx).ticker == Digits(sum) + behind;
    }
  }

  lemma SamePrefix(x: string, y: string, behind: string)
    ensures x + behind == y + behind <==> x == y
  {
    if x + behind == y + behind {
      assert x == (x + behind)[..|x|] && y == (y + behind)[..|y|];
    }
  }

  // ----- written out

  /** The rows of a staking call whose amounts are captioned `l`: the stake address, then up to three keys
      each with its amount in ONT, or three keys, how many more there are, and the total as it is computed. */
  predicate StakeWritten(base58: Base58, s: Stake, l: Label, rows: seq<Shown>)
    requires |s.keys| == |s.amounts|
  {
    var n, at := |s.keys|, base58(s.hash);
    && at.Some? && |rows| == (if n <= 3 then 1 + 2 * n else 6)
    && rows[0] == Shown(StakeAddress, at.value)
    && if n <= 3 then
         forall i :: 0 <= i < n ==>
           && rows[1 + 2 * i] == Shown(if n == 1 then PeerPubkey else Numbered(PeerPubkey, i + 1), AsChars(s.keys[i]))
           && rows[2 + 2 * i] ==
              Shown(if n == 1 then l else Numbered(l, i + 1), AmountText(G.AmountValue(s.amounts[i]), 0) + " ONT")
       else
         && rows[1] == Shown(Numbered(PeerPubkey, 1), AsChars(s.keys[0]))
         && rows[2] == Shown(Numbered(PeerPubkey, 2), AsChars(s.keys[1]))
         && rows[3] == Shown(Numbered(PeerPubkey, 3), AsChars(s.keys[2]))
         && rows[4] == Shown(NodeAmount, Digits(n - 3))
         && rows[5] == Shown(Total(l), Digits(Sum(s.amounts, n) % 0x1_0000_0000_0000_0000) + " ONT")
  }

  lemma RowsWritten(base58: Base58, info: Info, s: Stake, l: Label, rows: seq<Shown>)
    requires |s.keys| == |s.amounts| && StakeRows(base58, info, s, Sum(s.amounts, |s.amounts|) % U64, rows)
    requires info.vm == NativeVm && info.decimals == 0 && Suffix(info) == " ONT" && info.ticker == "ONT"
    requires StakeLabel(info.name) == l
    ensures StakeWritten(base58, s, l, rows)
  {
    hide AmountText, Digits, Sum, G.AmountValue, StakeLabel, Suffix, AsChars;
    var n := |s.keys|;
    if n <= 3 {
      assert |rows[1..]| == 2 * n;
      forall i | 0 <= i < n
        ensures rows[1 + 2 * i] == rows[1..][2 * i] && rows[2 + 2 * i] == rows[1..][2 * i + 1]
      {
      }
    } else {
      assert rows[1] == rows[1..4][0] && rows[2] == rows[1..4][1] && rows[3] == rows[1..4][2];
      forall x: string
        ensures x + " " + "ONT" == x + " ONT"
      {
      }
    }
  }

  /** Which caption the amounts have. */
  lemma StakeCaptions(name: seq<byte>)
    ensures name == Ascii("authorizeForPeer") ==> IsStaking(name) && StakeLabel(name) == StakeAmount
    ensures name == Ascii("unAuthorizeForPeer") ==> IsStaking(name) && StakeLabel(name) == UnstakeAmount
    ensures name == Ascii("withdraw") ==> IsStaking(name) && StakeLabel(name) == WithdrawAmount
  {
    assert AUTHORIZE_FOR_PEER[0] == 0x61 && UNAUTHORIZE_FOR_PEER[0] == 0x75 && WITHDRAW[0] == 0x77;
  }

  lemma StakeSuffix(tx: G.Tx)
    requires IsStaking(tx.payload.call.name) && tx.payload.call.addr == GOV_ADDR && tx.payload.NativeCall?
    ensures var info := InfoOf(tx);
            && info.vm == NativeVm && info.decimals == 0 && Suffix(info) == " ONT" && info.ticker == "ONT"
            && info.name == tx.payload.call.name
  {
    GovernanceInfo(tx);
    StakingNames(tx.payload.call.name);
    assert SET_FEE_PERCENTAGE[0] == 0x73;
    assert " " + "ONT" == " ONT";
  }

  /** A reviewed native call of each staking method, under its own caption. */
  lemma StakingReview(t: Target, base58: Base58, tx: G.Tx)
    requires G.TxOk(t, tx) && tx.payload.NativeCall? && Reviewed(base58, tx).Some?
    ensures var name, rows := tx.payload.call.name, Reviewed(base58, tx).value;
            && (name == Ascii("authorizeForPeer") ==>
                Stakes(tx) && StakeWritten(base58, StakeIn(tx), StakeAmount, rows))
            && (name == Ascii("unAuthorizeForPeer") ==>
                Stakes(tx) && StakeWritten(base58, StakeIn(tx), UnstakeAmount, rows))
            && (name == Ascii("withdraw") ==> Stakes(tx) && StakeWritten(base58, StakeIn(tx), WithdrawAmount, rows))
  {
    var name := tx.payload.call.name;
    StakeCaptions(name);
    hide Ascii, G.TxOk, Reviewed, IsStaking, StakeLabel, StakeWritten, InfoOf, StakeIn, StakeRows, Sum;
    if IsStaking(name) {
      StakingShown(t, base58, tx);
      StakeOf(t, tx);
      StakeSuffix(tx);
      RowsWritten(base58, InfoOf(tx), StakeIn(tx), StakeLabel(name), Reviewed(base58, tx).value);
    }
  }
}
