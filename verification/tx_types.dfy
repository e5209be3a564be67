/** Constants and stored fields of src/transaction/tx_types.h. */
module TxTypes {
  import opened Bytes

  /** What differs between builds: buffer sizes per device, and the width of size_t (32 bits on the
      device, 64 bits in the host tests). */
  datatype Build = Build(maxTx: nat, maxParams: nat, sizeMod: nat)

  type Target = t: Build |
    && ((t.maxTx == 4096 && t.maxParams == 90) || (t.maxTx == 6844 && t.maxParams == 150))
    && (t.sizeMod == U32 || t.sizeMod == U64)
    witness Build(4096, 90, U32)

  /** A number converted to size_t. */
  function SizeT(t: Target, x: int): (r: nat)
    ensures r < t.sizeMod
    ensures 0 <= x < t.sizeMod ==> r == x
  {
    if t.sizeMod == U32 then x % U32 else x % U64
  }

  /** What a conversion to size_t drops, in units of its range. */
  function Dropped(t: Target, x: nat): nat {
    if t.sizeMod == U32 then x / U32 else x / U64
  }

  /** The number that was converted. */
  function Restored(t: Target, n: nat, excess: nat): nat {
    if t.sizeMod == U32 then n + excess * U32 else n + excess * U64
  }

  lemma DroppedRestored(t: Target, x: nat, n: nat, excess: nat)
    ensures n == SizeT(t, x) && excess == Dropped(t, x) <==> n < t.sizeMod && x == Restored(t, n, excess)
  {
  }

  const GAS_PRICE_MIN: nat := 2500
  const GAS_LIMIT_MIN: nat := 20000
  const TOKEN_AMOUNT: nat := 1_000_000_000_000_000_000

  // Products and quotients of unknowns are defined step by step, so that definitions which mention
  // them stay within linear arithmetic; the lemmas say what they are.

  function Times(x: nat, y: nat): nat {
    if y == 0 then 0 else x + Times(x, y - 1)
  }

  lemma {:induction false} TimesIsProduct(x: nat, y: nat)
    ensures Times(x, y) == x * y
  {
    if y > 0 {
      TimesIsProduct(x, y - 1);
    }
  }

  function Quot(x: nat, d: nat): nat
    requires d > 0
  {
    if x < d then 0 else 1 + Quot(x - d, d)
  }

  lemma {:induction false} QuotBounds(x: nat, d: nat)
    requires d > 0
    ensures Quot(x, d) * d <= x < Quot(x, d) * d + d
  {
    if x >= d {
      QuotBounds(x - d, d);
      assert Quot(x, d) * d == Quot(x - d, d) * d + d by {
        assert (1 + Quot(x - d, d)) * d == d + Quot(x - d, d) * d;
      }
    }
  }

  lemma QuotIsDivision(x: nat, d: nat)
    requires d > 0
    ensures Quot(x, d) == x / d
  {
    QuotBounds(x, d);
    hide Quot;
    var q, k := Quot(x, d), x / d;
    assert x == k * d + x % d;
    if k < q {
      Monotone(k + 1, q, d);
    } else if q < k {
      Monotone(q + 1, k, d);
    }
  }

  /** A limit within the quotient is a product within the total, and then not larger than it. */
  lemma LimitMeans(total: nat, price: nat, limit: nat)
    requires price > 0
    ensures limit <= Quot(total, price) <==> Times(price, limit) <= total
    ensures Times(price, limit) <= total ==> limit <= total
  {
    QuotBounds(total, price);
    TimesIsProduct(price, limit);
    hide Quot, Times;
    var q := Quot(total, price);
    if limit <= q {
      Monotone(limit, q, price);
    } else {
      Monotone(q + 1, limit, price);
    }
    Monotone(1, price, limit);
  }

  lemma Monotone(x: nat, y: nat, z: nat)
    requires x <= y
    ensures x * z <= y * z
  {
  }

  const NATIVE_TRAILER: nat := 47
  const NEOVM_TRAILER: nat := 22

  const OPCODE_SYSCALL: seq<byte> := [0x00, 0x68]
  const OPCODE_APPCALL: seq<byte> := [0x67]
  const OPCODE_PACK: seq<byte> := [0xc1]
  const OPCODE_END: seq<byte> := [0x00]
  const OPCODE_ST_BEGIN: seq<byte> := [0x00, 0xc6, 0x6b]
  const OPCODE_ST_END: seq<byte> := [0x6c]
  const OPCODE_PARAM_END: seq<byte> := [0x6a, 0x7c, 0xc8]
  const OPCODE_PARAM_ST_END: seq<byte> := [0x6a, 0x7c, 0xc8, 0x6c]
  // A length byte of 22, then "Ontology.Native.Invoke".
  const NATIVE_INVOKE: seq<byte> :=
    [0x16, 0x4f, 0x6e, 0x74, 0x6f, 0x6c, 0x6f, 0x67, 0x79, 0x2e, 0x4e, 0x61,
     0x74, 0x69, 0x76, 0x65, 0x2e, 0x49, 0x6e, 0x76, 0x6f, 0x6b, 0x65]

  datatype Status = OK | TX_NOT_DEFINED | LENGTH_WRONG | BYTECODE_WRONG

  datatype Vm = NativeVm | NeoVm | WasmVm

  datatype ParamKind =
    | AddrKind
    | PubKeyKind
    | AmountKind
    | Uint128Kind
    | OntIdKind
    | PkAmountPairsKind
    | TransferStateKind
    | TransferStateListKind

  /** A tx_parameter_t. `data` points into the transaction, so it is kept as an offset; NoSlot is a
      zeroed slot, whose `data` is NULL. */
  datatype Slot = NoSlot | Slot(kind: ParamKind, start: nat, len: nat)

  /** The bytes a slot points at. */
  function SlotBytes(b: seq<byte>, s: Slot): (r: seq<byte>)
    requires s.Slot? && s.start + s.len <= |b|
    ensures |r| == s.len
  {
    b[s.start..s.start + s.len]
  }
}
