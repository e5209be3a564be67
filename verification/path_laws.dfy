/**
 Which numbers a first chunk spells: a count, then that many words with the most significant byte
 first. The laws are about the words as they are printed.
 */
module PathLaws {
  import opened Bytes
  import opened Review
  import opened Session

  /** A word with its most significant byte first. */
  function BigEndian(w: nat): (s: seq<byte>)
    ensures |s| == 4
  {
    var le := LeBytes(w, 4);
    [le[3], le[2], le[1], le[0]]
  }

  function PrintWords(ws: seq<nat>): (s: seq<byte>)
    ensures |s| == 4 * |ws|
  {
    if ws == [] then [] else BigEndian(ws[0]) + PrintWords(ws[1..])
  }

  predicate PathWords(ws: seq<nat>) {
    1 <= |ws| <= 10 && forall i :: 0 <= i < |ws| ==> ws[i] < 0x1_0000_0000
  }

  /** A path of these words as the host sends it. */
  function PrintPath(ws: seq<nat>): seq<byte>
    requires PathWords(ws)
  {
    [|ws|] + PrintWords(ws)
  }

  lemma LeFour(bs: seq<byte>)
    requires |bs| == 4
    ensures var w: seq<int> := bs; LeValue(bs) == w[0] + 0x100 * w[1] + 0x1_0000 * w[2] + 0x100_0000 * w[3]
  {
    assert bs[1..][1..][1..] == [bs[3]] && bs[1..][1..] == [bs[2], bs[3]];
    assert LeValue([bs[3]]) == bs[3];
    var w: seq<int> := bs;
    assert LeValue(bs[1..][1..]) == w[2] + 256 * w[3];
  }

  /** Four bytes of a chunk are a word exactly if they are its print. */
  lemma WordRead(b: seq<byte>, off: nat, w: nat)
    requires off + 4 <= |b| && w < U32
    ensures BeWord(b, off) == w <==> b[off..off + 4] == BigEndian(w)
  {
    Pow256Values();
    var bs := b[off..off + 4];
    var le: seq<byte> := [bs[3], bs[2], bs[1], bs[0]];
    LeFour(le);
    LeBytesOfValue(le);
    LeValueOfBytes(w, 4);
    hide LeValue, LeBytes, Pow256;
    assert BeWord(b, off) == LeValue(le);
    if bs == BigEndian(w) {
      assert le == LeBytes(w, 4);
    }
  }

  lemma WordBound(b: seq<byte>, off: nat)
    requires off + 4 <= |b|
    ensures BeWord(b, off) < U32
  {
    var w: seq<byte> := b[off..off + 4];
    assert forall k :: 0 <= k < 4 ==> 0 <= w[k] < 256;
  }

  lemma {:induction false} WordAt(ws: seq<nat>, i: nat)
    requires i < |ws|
    ensures PrintWords(ws)[4 * i..4 * i + 4] == BigEndian(ws[i])
  {
    hide BigEndian;
    var first, rest := BigEndian(ws[0]), PrintWords(ws[1..]);
    if i > 0 {
      WordAt(ws[1..], i - 1);
      assert (first + rest)[4 * i..4 * i + 4] == rest[4 * (i - 1)..4 * (i - 1) + 4];
    }
  }

  /** What is read is what was printed, whatever bytes follow. */
  lemma PathRead(ws: seq<nat>, rest: seq<byte>)
    requires PathWords(ws)
    ensures var data := PrintPath(ws) + rest;
            && PathComplete(data) && PathOf(data).len == |ws| && |PathOf(data).words| == 10
            && forall i :: 0 <= i < 10 ==> PathOf(data).words[i] == if i < |ws| then ws[i] else 0
  {
    var data := PrintPath(ws) + rest;
    forall i | 0 <= i < |ws|
      ensures PathOf(data).words[i] == ws[i]
    {
      WordAt(ws, i);
      WordRead(data, 1 + 4 * i, ws[i]);
      assert data[1 + 4 * i..1 + 4 * i + 4] == PrintWords(ws)[4 * i..4 * i + 4];
    }
  }

  /** Every complete chunk starts with a printed path. */
  lemma PathPrinted(data: seq<byte>) returns (ws: seq<nat>)
    requires PathComplete(data)
    ensures PathWords(ws) && PrintPath(ws) <= data
  {
    var n := data[0];
    ws := seq(n, i requires 0 <= i < n => BeWord(data, 1 + 4 * i));
    forall i | 0 <= i < n
      ensures ws[i] < U32 && data[1 + 4 * i..1 + 4 * i + 4] == BigEndian(ws[i])
    {
      WordBound(data, 1 + 4 * i);
      WordRead(data, 1 + 4 * i, ws[i]);
    }
    WordsPrinted(data, 1, ws);
    assert data[..1 + 4 * n] == [data[0]] + data[1..1 + 4 * n];
  }

  lemma {:induction false} WordsPrinted(b: seq<byte>, off: nat, ws: seq<nat>)
    requires off + 4 * |ws| <= |b|
    requires forall i :: 0 <= i < |ws| ==> b[off + 4 * i..off + 4 * i + 4] == BigEndian(ws[i])
    ensures b[off..off + 4 * |ws|] == PrintWords(ws)
    decreases ws
  {
    hide BigEndian;
    if ws != [] {
      forall i | 0 <= i < |ws[1..]|
        ensures b[off + 4 + 4 * i..off + 4 + 4 * i + 4] == BigEndian(ws[1..][i])
      {
        assert b[off + 4 * (i + 1)..off + 4 * (i + 1) + 4] == BigEndian(ws[i + 1]);
      }
      WordsPrinted(b, off + 4, ws[1..]);
      assert b[off + 4 * 0..off + 4 * 0 + 4] == BigEndian(ws[0]);
      assert b[off..off + 4 * |ws|] == b[off..off + 4] + b[off + 4..off + 4 * |ws|];
    }
  }

  /** The words of a path the app signs with: 44', then 1024' or 888'. */
  predicate AppPath(ws: seq<nat>) {
    |ws| >= 2 && ws[0] == 0x8000002c && (ws[1] == 0x80000400 || ws[1] == 0x80000378)
  }

  /** The answer to a printed path. */
  lemma PrintedPathAnswer(ws: seq<nat>, rest: seq<byte>)
    requires PathWords(ws)
    ensures PathAnswer(PrintPath(ws) + rest) == if AppPath(ws) then 0x9000 else 0xb00b
  {
    PathRead(ws, rest);
    hide PathOf, PrintPath, PathComplete;
  }

  /** The chunk starts with a printed path that the app signs with. */
  ghost predicate HasAppPath(data: seq<byte>) {
    exists ws :: PathWords(ws) && AppPath(ws) && PrintPath(ws) <= data
  }

  lemma PathAnswerOk(data: seq<byte>)
    ensures PathAnswer(data) == 0x9000 <==> HasAppPath(data)
  {
    hide PrintPath, PathWords, PathOf, ValidPrefix, PathAnswer, AppPath, PathComplete;
    if PathAnswer(data) == 0x9000 {
      OkIsComplete(data);
      var ws := PathPrinted(data);
      PrintedPathAnswer(ws, data[|PrintPath(ws)|..]);
      assert PrintPath(ws) + data[|PrintPath(ws)|..] == data;
    }
    if ws :| PathWords(ws) && AppPath(ws) && PrintPath(ws) <= data {
      PrintedPathAnswer(ws, data[|PrintPath(ws)|..]);
      assert PrintPath(ws) + data[|PrintPath(ws)|..] == data;
    }
  }

  lemma OkIsComplete(data: seq<byte>)
    requires PathAnswer(data) == 0x9000
    ensures PathComplete(data)
  {
  }

  /** Any other chunk is too short. */
  lemma OtherPathAnswer(data: seq<byte>)
    requires forall ws | PathWords(ws) :: !(PrintPath(ws) <= data)
    ensures PathAnswer(data) == 0x6a87
  {
    hide PrintPath, PathWords, PathOf, ValidPrefix;
    if PathComplete(data) {
      var ws := PathPrinted(data);
    }
  }
}
