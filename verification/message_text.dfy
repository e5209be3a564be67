/**
 src/ui/nbgl_display_message.c: the message as shown. `Visible` is the text; `Unescape` reads
 the `\xNN` escapes back.
 */
module MessageText {
  import opened Bytes
  import opened CStrings

  /** isprint and isspace of the C locale. */
  predicate IsPrint(c: int) {
    0x20 <= c <= 0x7e
  }

  predicate IsSpace(c: int) {
    c == 0x20 || 0x09 <= c <= 0x0d
  }

  function HexDigit(d: nat): (c: char)
    requires d < 16
  {
    "0123456789ABCDEF"[d]
  }

  function HexPair(x: byte): (s: string)
    ensures |s| == 2
  {
    [HexDigit(x / 16), HexDigit(x % 16)]
  }

  /** format_hex of the SDK, without the final NUL. */
  function Hex(bs: seq<byte>): (s: string)
    ensures |s| == 2 * |bs|
  {
    if bs == [] then [] else HexPair(bs[0]) + Hex(bs[1..])
  }

  /** White space is shown as a blank. */
  function Blank(x: byte): byte {
    if IsSpace(x) then 0x20 else x
  }

  function Escape(x: byte): (s: string)
    ensures 1 <= |s| <= 4
  {
    var c := Blank(x);
    if IsPrint(c) then [c as char] else ['\\', 'x'] + HexPair(c)
  }

  function Escaped(msg: seq<byte>): (s: string)
    ensures |msg| <= |s| <= 4 * |msg|
  {
    if msg == [] then [] else Escape(msg[0]) + Escaped(msg[1..])
  }

  /** 20 bytes that are not all printable are taken for an Ethereum address. */
  predicate IsAddress(msg: seq<byte>) {
    |msg| == 20 && exists i :: 0 <= i < |msg| && !IsPrint(msg[i])
  }

  /** The text of a message in a buffer of `room` bytes. */
  function Visible(msg: seq<byte>, room: nat): string {
    if IsAddress(msg) && room >= 43 then ['0', 'x'] + Hex(msg) else Escaped(msg)
  }

  predicate Printable(s: string) {
    forall i :: 0 <= i < |s| ==> IsPrint(s[i] as int)
  }

  /** Printable text with a NUL behind it. */
  lemma PrintableCString(a: seq<char>, s: string)
    requires |s| < |a| && a[..|s|] == s && a[|s|] == '\0' && Printable(s)
    ensures IsCString(a, s)
  {
  }

  /** What the escaping loop writes at `at` for one byte. */
  method PutEscape(c: byte, out: array<char>, at: nat) returns (next: nat)
    requires !IsPrint(c) && at + 4 <= out.Length
    modifies out
    ensures next == at + 4 && out[at..next] == ['\\', 'x'] + HexPair(c) && out[..at] == old(out[..at])
  {
    var hexDigits := "0123456789ABCDEF";
    out[at] := '\\';
    out[at + 1] := 'x';
    out[at + 2] := hexDigits[c / 16];
    out[at + 3] := hexDigits[c % 16];
    next := at + 4;
  }

  /** format_hex into out[at..], with its NUL; -1 when there is no room. */
  method FormatHex(bs: seq<byte>, out: array<char>, at: nat, room: nat) returns (written: int)
    requires at + room <= out.Length
    modifies out
    ensures out[..at] == old(out[..at])
    ensures room < 2 * |bs| + 1 ==> written == -1
    ensures room >= 2 * |bs| + 1 ==> written == 2 * |bs| + 1 && IsCString(out[at..], Hex(bs))
  {
    if room < 2 * |bs| + 1 {
      return -1;
    }
    hide Hex, HexPair;
    var i := 0;
    assert bs[..0] == [];
    while i < |bs|
      invariant i <= |bs| && out[..at] == old(out[..at])
      invariant out[at..at + 2 * i] == Hex(bs[..i])
    {
      ghost var before := out[..];
      PutHexPair(bs[i], out, at + 2 * i);
      HexAppend(bs, i);
      Grown(before, out[..], at, at + 2 * i, HexPair(bs[i]));
      i := i + 1;
    }
    assert bs[..|bs|] == bs;
    out[at + 2 * |bs|] := '\0';
    written := 2 * |bs| + 1;
    assert out[at..][..2 * |bs|] == out[at..at + 2 * |bs|];
    HexPrintable(bs);
    PrintableCString(out[at..], Hex(bs));
  }

  /** Two more characters behind what is there already. */
  lemma Grown(before: seq<char>, now: seq<char>, at: nat, end: nat, pair: string)
    requires at <= end && end + 2 <= |now| && |before| == |now| && |pair| == 2
    requires now[..end] == before[..end] && now[end..end + 2] == pair
    ensures now[..at] == before[..at] && now[at..end + 2] == before[at..end] + pair
  {
    assert now[..at] == now[..end][..at] && before[..at] == before[..end][..at];
    assert now[at..end] == now[..end][at..] && before[at..end] == before[..end][at..];
    assert now[at..end + 2] == now[at..end] + now[end..end + 2];
  }

  /** The two digits of one byte. */
  method PutHexPair(x: byte, out: array<char>, at: nat)
    requires at + 2 <= out.Length
    modifies out
    ensures out[at..at + 2] == HexPair(x) && out[..at] == old(out[..at])
  {
    out[at] := HexDigit(x / 16);
    out[at + 1] := HexDigit(x % 16);
  }

  lemma {:induction false} HexAppend(bs: seq<byte>, i: nat)
    requires i < |bs|
    ensures Hex(bs[..i + 1]) == Hex(bs[..i]) + HexPair(bs[i])
  {
    hide HexPair;
    if i == 0 {
      assert bs[..1] == [bs[0]] && bs[..1][1..] == [];
    } else {
      HexAppend(bs[1..], i - 1);
      assert bs[..i + 1][1..] == bs[1..][..i] && bs[..i][1..] == bs[1..][..i - 1];
    }
  }

  lemma {:induction false} EscapedAppend(msg: seq<byte>, i: nat)
    requires i < |msg|
    ensures Escaped(msg[..i + 1]) == Escaped(msg[..i]) + Escape(msg[i])
  {
    hide Escape;
    if i == 0 {
      assert msg[..1] == [msg[0]] && msg[..1][1..] == [];
    } else {
      EscapedAppend(msg[1..], i - 1);
      assert msg[..i + 1][1..] == msg[1..][..i] && msg[..i][1..] == msg[1..][..i - 1];
    }
  }

  /** The start of a message escapes to the start of its text. */
  lemma {:induction false} EscapedPrefix(msg: seq<byte>, i: nat)
    requires i <= |msg|
    ensures Escaped(msg[..i]) <= Escaped(msg)
    ensures |Escaped(msg)| >= |Escaped(msg[..i])| + |msg| - i
    decreases |msg| - i
  {
    hide Escape, Escaped;
    if i == |msg| {
      assert msg[..i] == msg;
    } else {
      EscapedPrefix(msg, i + 1);
      EscapedAppend(msg, i);
    }
  }

  /** The escaping loop. */
  method EscapeInto(msg: seq<byte>, out: array<char>, outLen: nat) returns (ok: bool)
    requires 0 < outLen <= out.Length
    modifies out
    ensures ok == (outLen > |Escaped(msg)|)
    ensures ok ==> IsCString(out[..], Escaped(msg))
  {
    hide Escaped, HexPair;
    var outPos, msgPos := 0, 0;
    EscapedNothing(msg);
    while msgPos < |msg| && outPos < outLen - 1
      invariant msgPos <= |msg| && outPos <= outLen - 1
      invariant outPos == |Escaped(msg[..msgPos])| && out[..outPos] == Escaped(msg[..msgPos])
    {
      var c: byte := msg[msgPos];
      if IsSpace(c) {
        c := 0x20;
      }
      EscapedAppend(msg, msgPos);
      EscapedPrefix(msg, msgPos + 1);
      if IsPrint(c) {
        out[outPos] := c as char;
        outPos := outPos + 1;
        assert out[..outPos] == out[..outPos - 1] + [c as char];
        msgPos := msgPos + 1;
      } else {
        if outPos + 4 > outLen - 1 {
          break;
        }
        outPos := PutEscape(c, out, outPos);
        assert out[..outPos] == out[..outPos - 4] + out[outPos - 4..outPos];
        msgPos := msgPos + 1;
      }
    }
    EscapedPrefix(msg, msgPos);
    assert msg[..|msg|] == msg;
    out[outPos] := '\0';
    ok := msgPos == |msg|;
    if ok {
      EscapedPrintable(msg);
      PrintableCString(out[..], Escaped(msg));
    }
  }

  lemma EscapedNothing(msg: seq<byte>)
    ensures Escaped(msg[..0]) == []
  {
  }

  /** The text is complete, or the method answers false: exactly when the buffer is too short. */
  method MakeMessageVisible(msg: seq<byte>, out: array<char>, outLen: nat) returns (ok: bool)
    requires outLen <= out.Length
    modifies out
    ensures ok == (msg != [] && outLen > |Visible(msg, outLen)|)
    ensures ok ==> IsCString(out[..], Visible(msg, outLen))
  {
    hide Hex, Escaped, IsPrint, IsCString;
    if |msg| == 0 || outLen == 0 {
      return false;
    }
    if |msg| == 20 && outLen >= 43 {
      var i := 0;
      while i < |msg|
        invariant i <= |msg| && forall k :: 0 <= k < i ==> IsPrint(msg[k])
      {
        if !IsPrint(msg[i]) {
          out[0] := '0';
          out[1] := 'x';
          var written := FormatHex(msg, out, 2, 41);
          HexText(out[..], Hex(msg));
          return written == 41;
        }
        i := i + 1;
      }
    }
    ok := EscapeInto(msg, out, outLen);
  }

  lemma HexText(a: seq<char>, hex: string)
    requires |a| >= 2 && a[..2] == ['0', 'x'] && IsCString(a[2..], hex)
    ensures IsCString(a, ['0', 'x'] + hex)
  {
    assert a[..2 + |hex|] == a[..2] + a[2..][..|hex|];
  }

  // ----- the laws

  /** A message of at most 1024 bytes always fits the app's buffer: in both builds it has more than
      four times as many bytes. */
  lemma NeverTruncated(msg: seq<byte>, maxParams: nat)
    requires |msg| <= 1024 && maxParams >= 90
    ensures var room := (maxParams + 1) * 67; |Visible(msg, room)| < room
  {
  }

  lemma HexPairPrintable(x: byte)
    ensures Printable(HexPair(x))
  {
    var digits := "0123456789ABCDEF";
    assert forall d :: 0 <= d < 16 ==> IsPrint(digits[d] as int);
  }

  lemma {:induction false} HexPrintable(bs: seq<byte>)
    ensures Printable(Hex(bs))
  {
    hide HexPair;
    if bs != [] {
      HexPairPrintable(bs[0]);
      HexPrintable(bs[1..]);
    }
  }

  lemma {:induction false} EscapedPrintable(msg: seq<byte>)
    ensures Printable(Escaped(msg))
  {
    hide HexPair;
    if msg != [] {
      HexPairPrintable(Blank(msg[0]));
      EscapedPrintable(msg[1..]);
    }
  }

  /** Only printable characters are shown. */
  lemma VisiblePrintable(msg: seq<byte>, room: nat)
    ensures Printable(Visible(msg, room))
  {
    hide Hex, Escaped, IsAddress;
    HexPrintable(msg);
    EscapedPrintable(msg);
  }

  // ----- reading the text back

  function HexValue(c: char): (v: int)
    ensures -1 <= v < 16
  {
    if '0' <= c <= '9' then (c - '0') as int
    else if 'A' <= c <= 'F' then (c - 'A') as int + 10
    else -1
  }

  /** An escape sequence opens `s`. */
  predicate EscapeAt(s: string) {
    |s| >= 4 && s[0] == '\\' && s[1] == 'x' && HexValue(s[2]) >= 0 && HexValue(s[3]) >= 0
  }

  function Unescape(s: string): seq<int> {
    if s == [] then []
    else if EscapeAt(s) then [HexValue(s[2]) * 16 + HexValue(s[3])] + Unescape(s[4..])
    else [s[0] as int] + Unescape(s[1..])
  }

  function Blanked(msg: seq<byte>): (r: seq<int>)
    ensures |r| == |msg|
  {
    if msg == [] then [] else [Blank(msg[0])] + Blanked(msg[1..])
  }

  /** The message itself contains the characters of an escape sequence. */
  predicate LooksEscaped(msg: seq<byte>) {
    exists i :: 0 <= i && i + 4 <= |msg| && SpelledAt(msg, i)
  }

  predicate SpelledAt(msg: seq<byte>, i: nat)
    requires i + 4 <= |msg|
  {
    && msg[i] == 0x5c && msg[i + 1] == 0x78
    && IsPrint(msg[i + 2]) && HexValue(msg[i + 2] as char) >= 0
    && IsPrint(msg[i + 3]) && HexValue(msg[i + 3] as char) >= 0
  }

  lemma HexPairValue(x: byte)
    ensures HexValue(HexPair(x)[0]) * 16 + HexValue(HexPair(x)[1]) == x
    ensures HexValue(HexPair(x)[0]) >= 0 && HexValue(HexPair(x)[1]) >= 0
  {
    var digits := "0123456789ABCDEF";
    assert forall d :: 0 <= d < 16 ==> HexValue(digits[d]) == d;
  }

  /** A printable byte is shown as itself. */
  lemma PlainFirst(msg: seq<byte>)
    requires msg != [] && IsPrint(msg[0])
    ensures Escaped(msg) == [msg[0] as char] + Escaped(msg[1..])
  {
  }

  /** Any other byte is shown as a blank or an escape. */
  lemma OddFirst(msg: seq<byte>)
    requires msg != [] && !IsPrint(msg[0])
    ensures Escaped(msg)[0] == ' ' || Escaped(msg)[0] == '\\'
  {
    hide HexPair;
  }

  /** The text of `msg` starts with the spelling of two hexadecimal digits exactly if `msg` does. */
  lemma HexFirst(msg: seq<byte>)
    requires msg != []
    ensures var s := Escaped(msg);
            if IsPrint(msg[0]) && HexValue(msg[0] as char) >= 0
            then s == [msg[0] as char] + Escaped(msg[1..]) else HexValue(s[0]) < 0
  {
    hide Escaped;
    if IsPrint(msg[0]) {
      PlainFirst(msg);
    } else {
      OddFirst(msg);
    }
  }

  /** The three characters behind the backslash. */
  predicate Spells(msg: seq<byte>) {
    && |msg| >= 3 && msg[0] == 0x78
    && IsPrint(msg[1]) && HexValue(msg[1] as char) >= 0
    && IsPrint(msg[2]) && HexValue(msg[2] as char) >= 0
  }

  predicate SpellsText(s: string) {
    |s| >= 3 && s[0] == 'x' && HexValue(s[1]) >= 0 && HexValue(s[2]) >= 0
  }

  lemma SpellsSame(msg: seq<byte>)
    ensures SpellsText(Escaped(msg)) <==> Spells(msg)
    ensures Spells(msg) ==> Escaped(msg)[3..] == Escaped(msg[3..])
  {
    hide Escaped, HexValue;
    if msg != [] {
      if msg[0] == 0x78 {
        PlainFirst(msg);
        var m1 := msg[1..];
        if m1 == [] {
          EmptyText();
        } else {
          HexFirst(m1);
          var m2 := m1[1..];
          if m2 == [] {
            EmptyText();
          } else {
            HexFirst(m2);
            assert m2[0] == msg[2] && m2[1..] == msg[3..];
          }
        }
      } else if IsPrint(msg[0]) {
        PlainFirst(msg);
      } else {
        OddFirst(msg);
      }
    } else {
      EmptyText();
    }
  }

  lemma OpensText(s: string)
    ensures var w := ['\\'] + s;
            (EscapeAt(w) <==> SpellsText(s)) && (SpellsText(s) ==> w[4..] == s[3..])
  {
    hide HexValue;
  }

  lemma SpelledHere(msg: seq<byte>)
    requires msg != [] && msg[0] == 0x5c
    ensures Spells(msg[1..]) <==> |msg| >= 4 && SpelledAt(msg, 0)
    ensures Spells(msg[1..]) ==> msg[1..][3..] == msg[4..]
  {
    hide HexValue, IsPrint;
  }

  /** A backslash opens an escape in the text exactly when the message spells one there. */
  lemma SpelledOpens(msg: seq<byte>)
    requires msg != [] && msg[0] == 0x5c
    ensures EscapeAt(Escaped(msg)) <==> |msg| >= 4 && SpelledAt(msg, 0)
    ensures EscapeAt(Escaped(msg)) ==> Escaped(msg)[4..] == Escaped(msg[4..])
    ensures Escaped(msg) == ['\\'] + Escaped(msg[1..])
  {
    hide Escaped, EscapeAt, SpelledAt, Spells, SpellsText;
    PlainFirst(msg);
    SpellsSame(msg[1..]);
    OpensText(Escaped(msg[1..]));
    SpelledHere(msg);
  }

  lemma EscapeFirst(msg: seq<byte>)
    requires msg != [] && !IsPrint(Blank(msg[0]))
    ensures Escaped(msg) == ['\\', 'x'] + HexPair(msg[0]) + Escaped(msg[1..]) && Blank(msg[0]) == msg[0]
  {
    hide HexPair;
  }

  lemma UnescapeOpened(s: string, rest: string, x: byte)
    requires s == ['\\', 'x'] + HexPair(x) + rest
    ensures Unescape(s) == [x as int] + Unescape(rest)
  {
    HexPairValue(x);
    assert s[2] == HexPair(x)[0] && s[3] == HexPair(x)[1] && s[4..] == rest;
  }

  lemma UnescapePlain(s: string, rest: string, c: char)
    requires s == [c] + rest && !EscapeAt(s)
    ensures Unescape(s) == [c as int] + Unescape(rest)
  {
    assert s[1..] == rest;
  }

  /** An unspelled first byte is read back as itself. */
  lemma UnescapeFirst(msg: seq<byte>)
    requires msg != [] && !(|msg| >= 4 && SpelledAt(msg, 0))
    ensures Unescape(Escaped(msg)) == [Blank(msg[0]) as int] + Unescape(Escaped(msg[1..]))
  {
    hide Unescape, HexPair, SpelledAt;
    var s, rest := Escaped(msg), Escaped(msg[1..]);
    if msg[0] == 0x5c {
      SpelledOpens(msg);
      UnescapePlain(s, rest, '\\');
    } else if IsPrint(Blank(msg[0])) {
      UnescapePlain(s, rest, Blank(msg[0]) as char);
    } else {
      EscapeFirst(msg);
      UnescapeOpened(s, rest, msg[0]);
    }
  }

  lemma {:induction false} UnescapeShort(msg: seq<byte>)
    ensures |Unescape(Escaped(msg))| <= |msg|
    decreases |msg|
  {
    hide Escape, SpelledAt;
    if msg != [] {
      if |msg| >= 4 && SpelledAt(msg, 0) {
        SpelledStart(msg);
        UnescapeShort(msg[4..]);
      } else {
        UnescapeFirst(msg);
        UnescapeShort(msg[1..]);
      }
    }
  }

  lemma SpelledStart(msg: seq<byte>)
    requires |msg| >= 4 && SpelledAt(msg, 0)
    ensures |Unescape(Escaped(msg))| == 1 + |Unescape(Escaped(msg[4..]))|
  {
    SpelledOpens(msg);
  }

  lemma LooksEscapedTail(msg: seq<byte>)
    requires msg != []
    ensures LooksEscaped(msg) <==> (|msg| >= 4 && SpelledAt(msg, 0)) || LooksEscaped(msg[1..])
  {
    if LooksEscaped(msg) {
      var i :| 0 <= i && i + 4 <= |msg| && SpelledAt(msg, i);
      if i > 0 {
        assert SpelledAt(msg[1..], i - 1);
      }
    }
    if LooksEscaped(msg[1..]) {
      var i :| 0 <= i && i + 4 <= |msg[1..]| && SpelledAt(msg[1..], i);
      assert SpelledAt(msg, i + 1);
    }
  }

  /** The text can be read back to the message (with blanks for white space) if and only if the
      message does not itself spell an escape sequence. */
  lemma {:induction false} UnescapeExact(msg: seq<byte>)
    ensures Unescape(Escaped(msg)) == Blanked(msg) <==> !LooksEscaped(msg)
    decreases |msg|
  {
    hide Escaped, Unescape, SpelledAt, Blank;
    if msg == [] {
      EmptyText();
    } else {
      LooksEscapedTail(msg);
      if |msg| >= 4 && SpelledAt(msg, 0) {
        SpelledStart(msg);
        UnescapeShort(msg[4..]);
      } else {
        UnescapeFirst(msg);
        UnescapeExact(msg[1..]);
        assert Unescape(Escaped(msg))[1..] == Unescape(Escaped(msg[1..]));
        assert Blanked(msg)[1..] == Blanked(msg[1..]);
      }
    }
  }

  lemma EmptyText()
    ensures Escaped([]) == [] && Unescape([]) == []
  {
  }

  /** Two different messages with one text: the byte 1, and its escape sequence spelled out. */
  lemma EscapesCollide()
    ensures Escaped([0x01]) == Escaped([0x5c, 0x78, 0x30, 0x31])
    ensures LooksEscaped([0x5c, 0x78, 0x30, 0x31])
  {
    assert Escaped([0x5c, 0x78, 0x30, 0x31]) == ['\\'] + (['x'] + (['0'] + (['1'] + Escaped([]))));
    assert SpelledAt([0x5c, 0x78, 0x30, 0x31], 0);
  }

  // ----- the hexadecimal form

  function ReadHex(s: string): seq<int> {
    if |s| < 2 then [] else [HexValue(s[0]) * 16 + HexValue(s[1])] + ReadHex(s[2..])
  }

  /** The hexadecimal form can be read back to the 20 bytes. */
  lemma {:induction false} HexRead(bs: seq<byte>)
    ensures var r := ReadHex(Hex(bs)); |r| == |bs| && forall i :: 0 <= i < |bs| ==> r[i] == bs[i]
  {
    hide HexPair, HexValue;
    if bs != [] {
      HexPairValue(bs[0]);
      HexRead(bs[1..]);
      assert Hex(bs)[2..] == Hex(bs[1..]);
    }
  }

  /** The message that consists of the characters of a text. */
  function Spelling(s: string): (r: seq<byte>)
    requires Printable(s)
    ensures |r| == |s|
  {
    seq(|s|, i requires 0 <= i < |s| => s[i] as int)
  }

  /** Printable text is shown as it is. */
  lemma {:induction false} PrintableIsShown(s: string)
    requires Printable(s)
    ensures Escaped(Spelling(s)) == s
    decreases |s|
  {
    if s != [] {
      PrintableIsShown(s[1..]);
      assert Spelling(s)[1..] == Spelling(s[1..]);
    }
  }

  /** Every message shown in hexadecimal shares its text with the message that spells that text. */
  lemma HexFormCollides(msg: seq<byte>, room: nat)
    requires IsAddress(msg) && room >= 43
    ensures var text := Visible(msg, room);
            && Printable(text) && Spelling(text) != msg && Visible(Spelling(text), room) == text
  {
    hide Hex, Escaped, IsPrint;
    VisiblePrintable(msg, room);
    PrintableIsShown(Visible(msg, room));
  }

  /** What is shown can be read back: twenty bytes shown in hexadecimal always, and any other message,
      with blanks for white space, if and only if it does not itself spell an escape sequence. */
  lemma VisibleReadBack(msg: seq<byte>, room: nat)
    ensures var text := Visible(msg, room);
            if IsAddress(msg) && room >= 43 then
              && text[..2] == "0x" && |ReadHex(text[2..])| == |msg|
              && forall i :: 0 <= i < |msg| ==> ReadHex(text[2..])[i] == msg[i]
            else Unescape(text) == Blanked(msg) <==> !LooksEscaped(msg)
  {
    hide Hex, Escaped, IsAddress, LooksEscaped, ReadHex;
    if IsAddress(msg) && room >= 43 {
      HexRead(msg);
      assert Visible(msg, room)[2..] == Hex(msg);
    } else {
      UnescapeExact(msg);
    }
  }

  // ----- the text written out

  /** Two hexadecimal digits for each byte. */
  predicate SpellsHex(s: string, bs: seq<byte>) {
    && |s| == 2 * |bs|
    && forall i :: 0 <= i < |bs| ==>
         && HexValue(s[2 * i]) >= 0 && HexValue(s[2 * i + 1]) >= 0
         && HexValue(s[2 * i]) * 16 + HexValue(s[2 * i + 1]) == bs[i]
  }

  lemma {:induction false} HexSpells(bs: seq<byte>)
    ensures SpellsHex(Hex(bs), bs)
  {
    hide HexPair, HexValue;
    if bs != [] {
      HexPairValue(bs[0]);
      HexSpells(bs[1..]);
      var s, rest := Hex(bs), Hex(bs[1..]);
      forall i | 0 <= i < |bs|
        ensures HexValue(s[2 * i]) >= 0 && HexValue(s[2 * i + 1]) >= 0
        ensures HexValue(s[2 * i]) * 16 + HexValue(s[2 * i + 1]) == bs[i]
      {
        if i > 0 {
          assert s[2 * i] == rest[2 * (i - 1)] && s[2 * i + 1] == rest[2 * (i - 1) + 1];
          assert bs[i] == bs[1..][i - 1];
        }
      }
    }
  }

  /** One byte as it is shown: white space as a blank, a printable character as itself, and anything else
      as a backslash, an x and two digits. */
  predicate ShowsByte(s: string, x: byte) {
    if 0x09 <= x <= 0x0d then s == " "
    else if 0x20 <= x <= 0x7e then |s| == 1 && s[0] as int == x
    else |s| == 4 && s[..2] == "\\x" && SpellsHex(s[2..], [x])
  }

  predicate ShowsBytes(s: string, msg: seq<byte>) {
    if msg == [] then s == []
    else
      var k := if 0x09 <= msg[0] <= 0x0d || 0x20 <= msg[0] <= 0x7e then 1 else 4;
      k <= |s| && ShowsByte(s[..k], msg[0]) && ShowsBytes(s[k..], msg[1..])
  }

  /** The text of a message: the digits of 20 bytes of which one is no printable character, and otherwise
      byte after byte. */
  predicate ShowsMessage(s: string, msg: seq<byte>) {
    if |msg| == 20 && exists i :: 0 <= i < 20 && !(0x20 <= msg[i] <= 0x7e) then
      |s| >= 2 && s[..2] == "0x" && SpellsHex(s[2..], msg)
    else ShowsBytes(s, msg)
  }

  lemma EscapeMeans(x: byte)
    ensures ShowsByte(Escape(x), x) && |Escape(x)| == if 0x09 <= x <= 0x0d || 0x20 <= x <= 0x7e then 1 else 4
  {
    HexSpells([x]);
    assert Hex([x]) == HexPair(x) + Hex([]);
    hide HexPair, SpellsHex;
    if !(0x09 <= x <= 0x0d || 0x20 <= x <= 0x7e) {
      assert Escape(x)[2..] == HexPair(x);
    }
  }

  lemma {:induction false} EscapedMeans(msg: seq<byte>)
    ensures ShowsBytes(Escaped(msg), msg)
  {
    hide Escape, ShowsByte;
    if msg != [] {
      EscapeMeans(msg[0]);
      EscapedMeans(msg[1..]);
      var s, k := Escaped(msg), |Escape(msg[0])|;
      assert s[..k] == Escape(msg[0]) && s[k..] == Escaped(msg[1..]);
    }
  }

  lemma VisibleMeans(msg: seq<byte>, room: nat)
    requires room >= 43
    ensures ShowsMessage(Visible(msg, room), msg)
  {
    hide Hex, Escaped, SpellsHex, ShowsBytes;
    HexSpells(msg);
    EscapedMeans(msg);
    if IsAddress(msg) {
      assert Visible(msg, room)[2..] == Hex(msg);
    }
  }
}
