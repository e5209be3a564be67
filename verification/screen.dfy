/** Assembling and reading the complete list of entries of a review. */
module Screen {
  import opened Bytes
  import opened TxTypes
  import opened Contracts
  import opened DisplayPlan
  import opened Display

  // ----- how many entries a plan has

  lemma {:induction false} BlocksLength(configs: seq<Config>, fields: seq<Field>)
    requires Permuted(configs) && |configs| == 3
    ensures var r := Blocks(configs, fields); r.Some? ==> |r.value| == |fields|
    decreases |fields|
  {
    hide Permuted, Block;
    if |fields| >= 3 {
      BlockLength(configs, fields[..3]);
      BlocksLength(configs, fields[3..]);
    }
  }

  lemma BlockLength(configs: seq<Config>, fields: seq<Field>)
    requires Permuted(configs)
    ensures var r := Block(configs, fields); r.Some? ==> |r.value| == |configs| <= |fields|
  {
    hide IndexAt;
  }

  lemma {:induction false} KeyEntriesLength(name: seq<byte>, fields: seq<Field>, n: nat, m: nat)
    requires m <= n && 2 + 2 * n <= |fields|
    ensures var r := KeyEntries(name, fields, n, m); r.Some? ==> |r.value| <= 2 * m
  {
    hide KeyEntry;
    if m > 0 {
      EntryLength(name, fields, n, m - 1);
      KeyEntriesLength(name, fields, n, m - 1);
    }
  }

  lemma StakeLength(info: Info, fields: seq<Field>)
    ensures var r := StakePlan(info, fields); r.Some? ==> |r.value| <= 8
  {
    hide KeyEntries, AmountSum;
    if StakePlan(info, fields).Some? {
      var n := fields[1].number.value;
      KeyEntriesLength(info.name, fields, n, if n < MAX_PUBKEY_DISPLAY then n else MAX_PUBKEY_DISPLAY);
    }
  }

  /** A plan never has more entries than parameters, apart from a few fixed ones. */
  lemma PlanLength(info: Info, fields: seq<Field>)
    ensures var r := Plan(info, fields); r.Some? ==> |r.value| <= |fields| || |r.value| <= 12
  {
    hide Configs, Permuted, Block, Blocks, StakePlan, IsStaking, IsTransfer;
    var c := Configs(info.vm, info.name);
    if c.Some? {
      ConfigsPermuted(info.vm, info.name);
      BlockLength(c.value, fields);
      StakeLength(info, fields);
      if IsTransfer(info.name) && |fields| >= 3 {
        TransferConfigs(info.vm, info.name);
        BlocksLength(c.value, fields[3..]);
      }
    }
  }

  // ----- the last two entries

  /** The cells of fee and signer, behind those of the parameters. */
  method AddClosing(t: Target, pairs: array<Pair>, cells: array<Content>, nbPairs: nat, ghost want: seq<Shown>,
                    ghost fee: string, ghost signer: string) returns (nb: nat)
    requires Roomy(t, pairs, cells) && nbPairs == |want| <= t.maxParams
    requires Shows(pairs[..], cells[..], t.maxParams + 1, want)
    requires cells[t.maxParams + 1] == Chars(fee) && cells[t.maxParams + 2] == Chars(signer)
    modifies pairs
    ensures nb == nbPairs + 2
    ensures Shows(pairs[..], cells[..], cells.Length, want + [Shown(GasFee, fee), Shown(Signer, signer)])
  {
    ghost var before := pairs[..];
    pairs[nbPairs] := Pair(Fixed(Caption(GasFee)), Cell(t.maxParams + 1));
    pairs[nbPairs + 1] := Pair(Fixed(Caption(Signer)), Cell(t.maxParams + 2));
    nb := nbPairs + 2;
    ShowsKept(before, cells[..], pairs[..], cells[..], t.maxParams + 1, cells.Length, want);
    ShowsMore(pairs[..], cells[..], cells.Length, want, Shown(GasFee, fee));
    ShowsMore(pairs[..], cells[..], cells.Length, want + [Shown(GasFee, fee)], Shown(Signer, signer));
    assert want + [Shown(GasFee, fee)] + [Shown(Signer, signer)] == want + [Shown(GasFee, fee), Shown(Signer, signer)];
  }

  // ----- what the user reads

  /** The content a reference leads to. */
  function Read(r: Ref, cells: seq<Content>): Content {
    match r
    case Fixed(c) => c
    case Cell(k) => if k < |cells| then cells[k] else Blank
  }

  lemma ReadAt(pairs: seq<Pair>, cells: seq<Content>, limit: nat, want: seq<Shown>, i: nat)
    requires Shows(pairs, cells, limit, want) && i < |want|
    ensures pairs[i].Pair? && Read(pairs[i].item, cells) == Caption(want[i].caption)
    ensures Read(pairs[i].value, cells) == Chars(want[i].text)
  {
    assert ShowsAt(pairs[i], cells, limit, want[i]);
  }

  /** The entries are followed through their references; what is read is what was meant. */
  method ReadScreen(pairs: array<Pair>, cells: array<Content>, nbPairs: nat, ghost want: seq<Shown>)
    returns (rows: seq<Shown>)
    requires nbPairs == |want| && Shows(pairs[..], cells[..], cells.Length, want)
    ensures rows == want
  {
    rows := [];
    var i := 0;
    while i < nbPairs
      invariant i <= nbPairs && rows == want[..i]
    {
      ReadAt(pairs[..], cells[..], cells.Length, want, i);
      rows := rows + [Shown(Read(pairs[i].item, cells[..]).l, Read(pairs[i].value, cells[..]).text)];
      i := i + 1;
    }
  }
}
