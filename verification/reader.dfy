/** The SDK byte reader (buffer_t), reduced to the operations the parser uses. */
module Reader {
  import opened Bytes

  class Buffer {
    const bytes: seq<byte>
    var offset: nat

    ghost predicate Valid()
      reads this
    {
      offset <= |bytes|
    }

    constructor (bytes: seq<byte>)
      ensures Valid() && this.bytes == bytes && offset == 0
    {
      this.bytes := bytes;
      offset := 0;
    }

    predicate CanRead(n: nat)
      requires Valid()
      reads this
    {
      |bytes| - offset >= n
    }

    method SeekSet(at: nat) returns (ok: bool)
      requires Valid()
      modifies this
      ensures Valid() && ok == (at <= |bytes|)
      ensures offset == if ok then at else old(offset)
    {
      ok := at <= |bytes|;
      if ok {
        offset := at;
      }
    }

    method SeekCur(n: nat) returns (ok: bool)
      requires Valid()
      modifies this
      ensures Valid() && ok == (old(offset) + n <= |bytes|)
      ensures offset == if ok then old(offset) + n else old(offset)
    {
      ok := offset + n <= |bytes|;
      if ok {
        offset := offset + n;
      }
    }

    method ReadU8() returns (ok: bool, value: byte)
      requires Valid()
      modifies this
      ensures Valid() && ok == (old(offset) < |bytes|)
      ensures offset == if ok then old(offset) + 1 else old(offset)
      ensures value == if ok then bytes[old(offset)] else 0
    {
      ok, value := CanRead(1), 0;
      if ok {
        value := bytes[offset];
        offset := offset + 1;
      }
    }

    /** buffer_read_u16, _u32 and _u64 with LE: `n` is 2, 4 or 8. */
    method ReadLe(n: nat) returns (ok: bool, value: nat)
      requires Valid() && (n == 2 || n == 4 || n == 8)
      modifies this
      ensures Valid() && ok == (old(offset) + n <= |bytes|)
      ensures offset == if ok then old(offset) + n else old(offset)
      ensures value == if ok then LeValue(bytes[old(offset)..old(offset) + n]) else 0
    {
      ok, value := CanRead(n), 0;
      if ok {
        value := LeValue(bytes[offset..offset + n]);
        offset := offset + n;
      }
    }
  }
}
