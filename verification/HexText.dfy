/** Two hexadecimal digits for a byte, and back. */
module HexDigits {
  import opened Common

  function DigitOf(v: int, upper: bool): char
    requires 0 <= v < 16
  {
    if v < 10 then ('0' as int + v) as char else ((if upper then 'A' else 'a') as int + v - 10) as char
  }

  function Digit(n: byte, upper: bool): char
    requires n < 16
  {
    assert n as int < 16;
    DigitOf(n as int, upper)
  }

  function Pair(b: byte, upper: bool): (s: string)
    ensures |s| == 2
  {
    [Digit(b >> 4, upper), Digit(b & 0xF, upper)]
  }

  /** The value of a digit; only the letters of one case are digits. */
  function ValueOf(c: char, upper: bool): (v: int)
    ensures -1 <= v < 16
  {
    if '0' <= c <= '9' then c as int - '0' as int
    else if upper && 'A' <= c <= 'F' then c as int - 'A' as int + 10
    else if !upper && 'a' <= c <= 'f' then c as int - 'a' as int + 10
    else -1
  }

  function Value(c: char, upper: bool): Option<byte> {
    if ValueOf(c, upper) < 0 then None else Some(ValueOf(c, upper) as byte)
  }

  function Byte(high: char, low: char, upper: bool): Option<byte> {
    match (Value(high, upper), Value(low, upper))
    case (Some(h), Some(l)) => Some((h << 4) | l)
    case _ => None
  }

  lemma DigitValue(n: byte, upper: bool)
    requires n < 16
    ensures Value(Digit(n, upper), upper) == Some(n)
  {
    assert n as int < 16;
  }

  lemma DigitOfValue(c: char, upper: bool)
    requires ValueOf(c, upper) >= 0
    ensures DigitOf(ValueOf(c, upper), upper) == c
  {
  }

  lemma ByteOfInt(v: int)
    requires 0 <= v < 16
    ensures (v as byte) < 16 && (v as byte) as int == v
  {
  }

  lemma ValueDigit(c: char, upper: bool)
    requires Value(c, upper).Some?
    ensures Value(c, upper).value < 16 && Digit(Value(c, upper).value, upper) == c
  {
    DigitOfValue(c, upper);
    ByteOfInt(ValueOf(c, upper));
  }

  lemma Nibbles(b: byte, h: byte, l: byte)
    ensures ((b >> 4) << 4) | (b & 0xF) == b
    ensures h < 16 && l < 16 ==> ((h << 4) | l) >> 4 == h && ((h << 4) | l) & 0xF == l
  {
  }

  lemma ByteOfPair(b: byte, upper: bool)
    ensures Byte(Pair(b, upper)[0], Pair(b, upper)[1], upper) == Some(b)
  {
    DigitValue(b >> 4, upper);
    DigitValue(b & 0xF, upper);
    Nibbles(b, 0, 0);
  }

  lemma PairOfByte(high: char, low: char, upper: bool)
    requires Byte(high, low, upper).Some?
    ensures Pair(Byte(high, low, upper).value, upper) == [high, low]
  {
    ValueDigit(high, upper);
    ValueDigit(low, upper);
    Nibbles(0, Value(high, upper).value, Value(low, upper).value);
  }
}

/** The Hex formatter, and a decoder written from section 8 of RFC 4648. */
module Hex {
  import opened Common
  import opened HexDigits

  /** The bytes one after the other, each written by `write`. */
  function Written(write: byte -> string, data: seq<byte>): string {
    if data == [] then "" else Written(write, data[..|data| - 1]) + write(data[|data| - 1])
  }

  /** The bytes of the pairs of characters, each read by `read`, if it reads them all. */
  function ReadAll(read: (char, char) -> Option<byte>, s: string): Option<seq<byte>> {
    if s == "" then Some([])
    else if |s| < 2 then None
    else
      var n := |s| - 2;
      match (ReadAll(read, s[..n]), read(s[n], s[n + 1]))
      case (Some(front), Some(b)) => Some(front + [b])
      case _ => None
  }

  function UpperPair(b: byte): string { Pair(b, true) }

  function UpperByte(high: char, low: char): Option<byte> { Byte(high, low, true) }

  function Encode(data: seq<byte>): string { Written(UpperPair, data) }

  function Decode(s: string): Option<seq<byte>> { ReadAll(UpperByte, s) }

  lemma {:induction false} ReadOfWritten(write: byte -> string, read: (char, char) -> Option<byte>, data: seq<byte>)
    requires forall b :: |write(b)| == 2 && read(write(b)[0], write(b)[1]) == Some(b)
    ensures ReadAll(read, Written(write, data)) == Some(data)
  {
    if data != [] {
      var n := |data| - 1;
      ReadOfWritten(write, read, data[..n]);
      var s := Written(write, data);
      assert s[..|s| - 2] == Written(write, data[..n]);
      assert data[..n] + [data[n]] == data;
    }
  }

  lemma DecodeInvertsEncode(data: seq<byte>)
    ensures Decode(Encode(data)) == Some(data)
  {
    forall b
      ensures |UpperPair(b)| == 2 && UpperByte(UpperPair(b)[0], UpperPair(b)[1]) == Some(b)
    {
      ByteOfPair(b, true);
    }
    ReadOfWritten(UpperPair, UpperByte, data);
  }

  lemma WrittenAppend(write: byte -> string, front: seq<byte>, b: byte, s: string, pair: string)
    requires write(b) == pair && Written(write, front) == s
    ensures Written(write, front + [b]) == s + pair
  {
    assert (front + [b])[..|front|] == front;
  }

  /** The last step of a reading that succeeds. */
  lemma ReadLast(read: (char, char) -> Option<byte>, s: string)
    returns (start: string, front: seq<byte>, high: char, low: char)
    requires s != "" && ReadAll(read, s).Some?
    ensures s == start + [high, low] && read(high, low).Some? && ReadAll(read, start) == Some(front)
    ensures ReadAll(read, s) == Some(front + [read(high, low).value])
  {
    var n := |s| - 2;
    start, high, low := s[..n], s[n], s[n + 1];
    front := ReadAll(read, start).value;
  }

  lemma {:induction false} WrittenOfRead(write: byte -> string, read: (char, char) -> Option<byte>, s: string)
    requires forall h, l :: read(h, l).Some? ==> write(read(h, l).value) == [h, l]
    requires ReadAll(read, s).Some?
    ensures Written(write, ReadAll(read, s).value) == s
  {
    if s != "" {
      var start, front, high, low := ReadLast(read, s);
      WrittenOfRead(write, read, start);
      WrittenAppend(write, front, read(high, low).value, start, [high, low]);
    }
  }

  lemma EncodeInvertsDecode(s: string)
    requires Decode(s).Some?
    ensures Encode(Decode(s).value) == s
  {
    forall h, l | UpperByte(h, l).Some?
      ensures UpperPair(UpperByte(h, l).value) == [h, l]
    {
      PairOfByte(h, l, true);
    }
    WrittenOfRead(UpperPair, UpperByte, s);
  }

  method Format(data: seq<byte>) returns (out: string)
    ensures out == Encode(data) && Decode(out) == Some(data)
  {
    DecodeInvertsEncode(data);
    out := "";
    for i := 0 to |data|
      invariant out == Encode(data[..i])
    {
      assert data[..i + 1][..i] == data[..i];
      out := out + Pair(data[i], true);
    }
    assert data[..|data|] == data;
  }
}

/** The Text formatter: printable bytes as they are, others as a four-character escape. */
module Text {
  import opened Common
  import opened HexDigits

  /** `isprint` in the C locale. */
  predicate Printable(b: byte) { 0x20 <= b <= 0x7E }

  function CharOf(b: byte): char
    requires Printable(b)
  {
    assert b as int < 256;
    b as int as char
  }

  function Escape(b: byte): (s: string)
    ensures |s| == 4
  {
    ['\\', 'x'] + Pair(b, false)
  }

  function Piece(b: byte): string { if Printable(b) then [CharOf(b)] else Escape(b) }

  function Encode(data: seq<byte>): string {
    if data == [] then "" else Piece(data[0]) + Encode(data[1..])
  }

  /** The byte whose escape starts the text, if there is one. */
  function Escaped(s: string): Option<byte> {
    if |s| >= 4 && s[0] == '\\' && s[1] == 'x' then
      match Byte(s[2], s[3], false)
      case Some(b) => if Printable(b) then None else Some(b)
      case None => None
    else None
  }

  function ByteOf(c: char): byte { if c as int < 256 then c as int as byte else 0 }

  lemma ByteOfIs(c: char)
    requires c as int < 256
    ensures ByteOf(c) as int == c as int
  {
  }

  /** Reads escapes wherever it meets one and takes every other character as it is. */
  function Unescape(s: string): seq<byte> {
    if s == "" then []
    else match Escaped(s)
      case Some(b) => [b] + Unescape(s[4..])
      case None => [ByteOf(s[0])] + Unescape(s[1..])
  }

  /** The input itself starts with the four bytes of an escape. */
  predicate StartsWithSpelling(data: seq<byte>) {
    && |data| >= 4
    && (forall i :: 0 <= i < 4 ==> Printable(data[i]))
    && Escaped([CharOf(data[0]), CharOf(data[1]), CharOf(data[2]), CharOf(data[3])]).Some?
  }

  ghost predicate HasSpelling(data: seq<byte>) {
    exists i :: 0 <= i <= |data| && StartsWithSpelling(data[i..])
  }

  // ---------- Output shape ----------

  lemma PrintableDigits(b: byte)
    ensures forall c :: c in Pair(b, false) ==> ' ' <= c <= '~'
  {
  }

  /** Only printable characters come out, between one and four for each byte. */
  lemma {:induction false} OutputIsPrintable(data: seq<byte>)
    ensures forall c :: c in Encode(data) ==> ' ' <= c <= '~'
    ensures |data| <= |Encode(data)| <= 4 * |data|
  {
    if data != [] {
      OutputIsPrintable(data[1..]);
      PrintableDigits(data[0]);
    }
  }

  // ---------- Recovering the input ----------

  lemma CharByte(b: byte)
    requires Printable(b)
    ensures ByteOf(CharOf(b)) == b && (CharOf(b) == '\\' <==> b == 0x5C)
  {
    assert b as int < 256;
  }

  lemma EscapeIsRead(b: byte, rest: string)
    requires !Printable(b)
    ensures Unescape(Escape(b) + rest) == [b] + Unescape(rest)
  {
    ByteOfPair(b, false);
    assert (Escape(b) + rest)[4..] == rest;
  }

  /** Leading printable bytes are the leading characters. */
  lemma {:induction false} PrintablePrefix(data: seq<byte>, k: nat)
    requires k <= |data| && forall i :: 0 <= i < k ==> Printable(data[i])
    ensures |Encode(data)| >= k && Encode(data)[k..] == Encode(data[k..])
    ensures forall i :: 0 <= i < k ==> Encode(data)[i] == CharOf(data[i])
  {
    if k > 0 {
      PrintablePrefix(data[1..], k - 1);
      assert Encode(data)[1..] == Encode(data[1..]);
      assert data[1..][k - 1..] == data[k..];
    }
  }

  ghost function LeadingPrintable(data: seq<byte>): (k: nat)
    ensures k <= |data| && (forall i :: 0 <= i < k ==> Printable(data[i])) && (k < |data| ==> !Printable(data[k]))
  {
    if data == [] || !Printable(data[0]) then 0 else 1 + LeadingPrintable(data[1..])
  }

  /** The text starts with an escape just when the input spells one out. */
  lemma EscapeOnlyIfSpelled(data: seq<byte>)
    requires data != [] && Printable(data[0])
    ensures Escaped(Encode(data)).Some? <==> StartsWithSpelling(data)
    ensures StartsWithSpelling(data) ==> Encode(data)[4..] == Encode(data[4..])
  {
    if LeadingPrintable(data) >= 4 {
      PrintablePrefix(data, 4);
    } else {
      ShortFront(data, LeadingPrintable(data));
    }
  }

  /** With fewer than four printable bytes in front, an escape of another byte comes too early. */
  lemma ShortFront(data: seq<byte>, k: nat)
    requires data != [] && k == LeadingPrintable(data) && 1 <= k < 4
    ensures Escaped(Encode(data)) == None && !StartsWithSpelling(data)
  {
    var s := Encode(data);
    PrintablePrefix(data, k);
    // the text ends here or goes on with the backslash of an escape
    assert k < |s| ==> s[k] == s[k..][0] == '\\';
  }

  lemma SpellingStep(data: seq<byte>)
    requires data != []
    ensures HasSpelling(data) <==> StartsWithSpelling(data) || HasSpelling(data[1..])
  {
    if HasSpelling(data) {
      var i :| 0 <= i <= |data| && StartsWithSpelling(data[i..]);
      if i > 0 {
        assert data[1..][i - 1..] == data[i..];
      } else {
        assert data[0..] == data;
      }
    }
    if HasSpelling(data[1..]) {
      var i :| 0 <= i <= |data[1..]| && StartsWithSpelling(data[1..][i..]);
      assert data[i + 1..] == data[1..][i..];
    }
    if StartsWithSpelling(data) {
      assert data[0..] == data;
    }
  }

  lemma {:induction false} UnescapeIsShorter(data: seq<byte>)
    ensures |Unescape(Encode(data))| <= |data|
  {
    if data != [] {
      if !Printable(data[0]) {
        EscapeIsRead(data[0], Encode(data[1..]));
        UnescapeIsShorter(data[1..]);
      } else {
        EscapeOnlyIfSpelled(data);
        if StartsWithSpelling(data) {
          UnescapeIsShorter(data[4..]);
        } else {
          assert Encode(data)[1..] == Encode(data[1..]);
          UnescapeIsShorter(data[1..]);
        }
      }
    }
  }

  lemma SpellingIsMisread(data: seq<byte>)
    requires StartsWithSpelling(data)
    ensures |Unescape(Encode(data))| < |data|
  {
    EscapeOnlyIfSpelled(data);
    UnescapeIsShorter(data[4..]);
  }

  lemma FirstByteIsRead(data: seq<byte>)
    requires data != [] && !StartsWithSpelling(data)
    ensures Unescape(Encode(data)) == [data[0]] + Unescape(Encode(data[1..]))
  {
    if !Printable(data[0]) {
      EscapeIsRead(data[0], Encode(data[1..]));
    } else {
      EscapeOnlyIfSpelled(data);
      CharByte(data[0]);
      assert Encode(data)[1..] == Encode(data[1..]);
    }
  }

  /** Reading escapes greedily gives the input back exactly when the input spells out no escape of its own. */
  lemma {:induction false} RecoveredIffNoSpelling(data: seq<byte>)
    ensures Unescape(Encode(data)) == data <==> !HasSpelling(data)
  {
    if data == [] {
    } else {
      SpellingStep(data);
      if StartsWithSpelling(data) {
        SpellingIsMisread(data);
      } else {
        RecoveredIffNoSpelling(data[1..]);
        FirstByteIsRead(data);
        assert data == [data[0]] + data[1..];
      }
    }
  }

  // ---------- What each byte becomes ----------

  const LOWER_DIGITS: string := "0123456789abcdef"

  /**
   * The text read against the data, byte by byte: a byte from space to tilde is
   * itself, any other is a backslash, an `x` and its two lower-case digits.
   */
  ghost predicate Spells(data: seq<byte>, text: string) {
    if data == [] then text == ""
    else if 0x20 <= data[0] as int <= 0x7E then
      text != "" && text[0] as int == data[0] as int && Spells(data[1..], text[1..])
    else
      var high, low := (data[0] >> 4) as int, (data[0] & 0xF) as int;
      && |text| >= 4 && high < 16 && low < 16
      && text[..4] == ['\\', 'x', LOWER_DIGITS[high], LOWER_DIGITS[low]] && Spells(data[1..], text[4..])
  }

  lemma PrintableIs(b: byte)
    ensures Printable(b) <==> 0x20 <= b as int <= 0x7E
  {
  }

  lemma EscapeIs(b: byte)
    ensures (b >> 4) as int < 16 && (b & 0xF) as int < 16
    ensures Escape(b) == ['\\', 'x', LOWER_DIGITS[(b >> 4) as int], LOWER_DIGITS[(b & 0xF) as int]]
  {
    DigitIs(b >> 4);
    DigitIs(b & 0xF);
  }

  lemma DigitIs(n: byte)
    requires n < 16
    ensures n as int < 16 && Digit(n, false) == LOWER_DIGITS[n as int]
  {
  }

  lemma {:induction false} EncodeSpells(data: seq<byte>)
    ensures Spells(data, Encode(data))
  {
    if data != [] {
      var b, rest := data[0], Encode(data[1..]);
      EncodeSpells(data[1..]);
      PrintableIs(b);
      if Printable(b) {
        assert Encode(data) == [CharOf(b)] + rest && Encode(data)[1..] == rest;
      } else {
        EscapeIs(b);
        assert Encode(data) == Escape(b) + rest && Encode(data)[..4] == Escape(b) && Encode(data)[4..] == rest;
      }
    }
  }

  /** There is only one such text. */
  lemma {:induction false} SpellsIsUnique(data: seq<byte>, s: string, t: string)
    requires Spells(data, s) && Spells(data, t)
    ensures s == t
  {
    if data != [] {
      if 0x20 <= data[0] as int <= 0x7E {
        SpellsIsUnique(data[1..], s[1..], t[1..]);
        assert s == [s[0]] + s[1..] && t == [t[0]] + t[1..];
      } else {
        SpellsIsUnique(data[1..], s[4..], t[4..]);
        assert s == s[..4] + s[4..] && t == t[..4] + t[4..];
      }
    }
  }

  lemma {:induction false} PrintableSpelling(data: seq<byte>, text: string)
    requires Spells(data, text) && forall i :: 0 <= i < |data| ==> 0x20 <= data[i] as int <= 0x7E
    ensures |text| == |data| && forall i :: 0 <= i < |data| ==> text[i] as int == data[i] as int
  {
    if data != [] {
      PrintableSpelling(data[1..], text[1..]);
    }
  }

  /** The text of two pieces of data is the text of one after the text of the other. */
  lemma {:induction false} EncodeSplits(first: seq<byte>, second: seq<byte>)
    ensures Encode(first + second) == Encode(first) + Encode(second)
  {
    if first == [] {
      assert first + second == second;
    } else {
      var head, rest := Piece(first[0]), first[1..];
      assert (first + second)[0] == first[0] && (first + second)[1..] == rest + second;
      calc {
        Encode(first + second);
        head + Encode(rest + second);
        { EncodeSplits(rest, second); }
        head + (Encode(rest) + Encode(second));
        head + Encode(rest) + Encode(second);
        Encode(first) + Encode(second);
      }
    }
  }

  lemma EncodeSplitsAnywhere(data: seq<byte>)
    ensures forall k :: 0 <= k <= |data| ==> Encode(data) == Encode(data[..k]) + Encode(data[k..])
  {
    forall k | 0 <= k <= |data|
      ensures Encode(data) == Encode(data[..k]) + Encode(data[k..])
    {
      assert data[..k] + data[k..] == data;
      EncodeSplits(data[..k], data[k..]);
    }
  }

  lemma SpellingFacts(data: seq<byte>, out: string)
    requires Spells(data, out)
    ensures (forall i :: 0 <= i < |data| ==> 0x20 <= data[i] as int <= 0x7E) ==>
              |out| == |data| && forall i :: 0 <= i < |data| ==> out[i] as int == data[i] as int
    ensures |data| == 1 && !(0x20 <= data[0] as int <= 0x7E) ==>
      && |out| == 4 && out[..2] == "\\x" && (data[0] >> 4) as int < 16 && (data[0] & 0xF) as int < 16
      && out[2] == "0123456789abcdef"[(data[0] >> 4) as int] && out[3] == "0123456789abcdef"[(data[0] & 0xF) as int]
  {
    if forall i :: 0 <= i < |data| ==> 0x20 <= data[i] as int <= 0x7E {
      PrintableSpelling(data, out);
    }
    if |data| == 1 && !(0x20 <= data[0] as int <= 0x7E) {
      assert Spells(data[1..], out[4..]) && data[1..] == [];
      assert out[..4] == out;
    }
  }

  // ---------- The loop ----------

  lemma {:induction false} EncodeAppend(data: seq<byte>, b: byte)
    ensures Encode(data + [b]) == Encode(data) + Piece(b)
  {
    if data == [] {
      assert data + [b] == [b] && [b][1..] == [] && Encode([b]) == Piece(b) + "" == Piece(b);
    } else {
      var head, rest := Piece(data[0]), data[1..];
      assert (data + [b])[0] == data[0] && (data + [b])[1..] == rest + [b];
      calc {
        Encode(data + [b]);
        head + Encode(rest + [b]);
        { EncodeAppend(rest, b); }
        head + (Encode(rest) + Piece(b));
        head + Encode(rest) + Piece(b);
        Encode(data) + Piece(b);
      }
    }
  }

  method Format(data: seq<byte>) returns (out: string)
    ensures out == Encode(data) && Spells(data, out)
    ensures (forall i :: 0 <= i < |data| ==> 0x20 <= data[i] as int <= 0x7E) ==>
              |out| == |data| && forall i :: 0 <= i < |data| ==> out[i] as int == data[i] as int
    ensures |data| == 1 && !(0x20 <= data[0] as int <= 0x7E) ==>
      && |out| == 4 && out[..2] == "\\x" && (data[0] >> 4) as int < 16 && (data[0] & 0xF) as int < 16
      && out[2] == "0123456789abcdef"[(data[0] >> 4) as int] && out[3] == "0123456789abcdef"[(data[0] & 0xF) as int]
    ensures forall k :: 0 <= k <= |data| ==> out == Encode(data[..k]) + Encode(data[k..])
  {
    out := "";
    for i := 0 to |data|
      invariant out == Encode(data[..i])
    {
      var ch := data[i];
      EncodeAppend(data[..i], ch);
      assert data[..i + 1] == data[..i] + [ch];
      if Printable(ch) {
        out := out + [CharOf(ch)];
      } else {
        out := out + ['\\', 'x'] + Pair(ch, false);
      }
    }
    assert data[..|data|] == data;
    EncodeSpells(data);
    SpellingFacts(data, out);
    EncodeSplitsAnywhere(data);
  }
}
