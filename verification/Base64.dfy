/** The Base64 formatter, and a decoder written from section 4 of RFC 4648. */
module Base64 {
  import opened Common
  import opened Modular

  /** The characters from `first` on, in code order. */
  function Letters(first: char, n: nat): (s: string)
    requires first as int + n <= 128
    ensures |s| == n && forall i :: 0 <= i < n ==> s[i] == (first as int + i) as char
  {
    seq(n, i requires 0 <= i < n => (first as int + i) as char)
  }

  const TABLE: string := Letters('A', 26) + Letters('a', 26) + Letters('0', 10) + "+/"

  // ---------- The formatter ----------

  /** The table lookup; every index the formatter forms is below 64. */
  function Symbol(v: byte): char
    requires v < 64
  {
    assert v as int < 64;
    TABLE[v as int]
  }

  /** The six-bit parts of three bytes. */
  function Parts(b0: byte, b1: byte, b2: byte): (p: (byte, byte, byte, byte))
    ensures p.0 < 64 && p.1 < 64 && p.2 < 64 && p.3 < 64
  {
    (b0 >> 2, ((b0 << 4) & 0x30) | (b1 >> 4), ((b1 << 2) & 0x3C) | (b2 >> 6), b2 & 0x3F)
  }

  function ByteAt(data: seq<byte>, i: nat): byte { if i < |data| then data[i] else 0 }

  /** One group of up to three bytes. */
  function Group(data: seq<byte>): (g: string)
    ensures |g| == 4
  {
    var (v0, v1, v2, v3) := Parts(ByteAt(data, 0), ByteAt(data, 1), ByteAt(data, 2));
    [Symbol(v0), Symbol(v1), if |data| >= 2 then Symbol(v2) else '=', if |data| >= 3 then Symbol(v3) else '=']
  }

  /** The number of bytes in the first group. */
  function Taken(data: seq<byte>): nat { if |data| < 3 then |data| else 3 }

  /** The groups of the data, each written by `write`. */
  function Chunked(write: seq<byte> -> string, data: seq<byte>): string {
    if data == [] then "" else write(data[..Taken(data)]) + Chunked(write, data[Taken(data)..])
  }

  function Encode(data: seq<byte>): string { Chunked(Group, data) }

  // ---------- Section 4 of RFC 4648 ----------

  /** The value of one character of the alphabet. */
  function Value(c: char): Option<int> {
    if 'A' <= c <= 'Z' then Some(c as int - 'A' as int)
    else if 'a' <= c <= 'z' then Some(c as int - 'a' as int + 26)
    else if '0' <= c <= '9' then Some(c as int - '0' as int + 52)
    else if c == '+' then Some(62)
    else if c == '/' then Some(63)
    else None
  }

  function Sextet(c: char): Option<byte> {
    match Value(c)
    case None => None
    case Some(v) => Some(v as byte)
  }

  /** The 24 bits of four six-bit values, first value highest. */
  function Join(v0: byte, v1: byte, v2: byte, v3: byte): bv24 {
    (v0 as bv24 << 18) | (v1 as bv24 << 12) | (v2 as bv24 << 6) | v3 as bv24
  }

  /** The three bytes of 24 bits, highest first. */
  function Split(w: bv24): (byte, byte, byte) {
    ((w >> 16) as byte, ((w >> 8) & 0xFF) as byte, (w & 0xFF) as byte)
  }

  /** The first `n` bytes of four six-bit values; bits that padding leaves over must be zero. */
  function Unpack(v0: byte, v1: byte, v2: byte, v3: byte, n: nat): Option<seq<byte>>
    requires 1 <= n <= 3
  {
    var (b0, b1, b2) := Split(Join(v0, v1, v2, v3));
    if n == 3 then Some([b0, b1, b2])
    else if n == 2 then (if b2 == 0 then Some([b0, b1]) else None)
    else if b1 == 0 && b2 == 0 then Some([b0]) else None
  }

  /** Four characters, the last one or two of which may be padding. */
  function DecodeGroup(s: string): Option<seq<byte>>
    requires |s| == 4
  {
    match (Sextet(s[0]), Sextet(s[1]), Sextet(s[2]), Sextet(s[3]))
    case (Some(v0), Some(v1), Some(v2), Some(v3)) => Unpack(v0, v1, v2, v3, 3)
    case (Some(v0), Some(v1), Some(v2), None) => if s[3] == '=' then Unpack(v0, v1, v2, 0, 2) else None
    case (Some(v0), Some(v1), None, None) => if s[2] == '=' && s[3] == '=' then Unpack(v0, v1, 0, 0, 1) else None
    case _ => None
  }

  /** Padding is allowed in the last group only. */
  function Decode(s: string): Option<seq<byte>> {
    if s == "" then Some([])
    else if |s| < 4 then None
    else if |s| == 4 then DecodeGroup(s)
    else match (DecodeGroup(s[..4]), Decode(s[4..]))
      case (Some(front), Some(rest)) => if |front| == 3 then Some(front + rest) else None
      case _ => None
  }

  lemma ChunkedStep(write: seq<byte> -> string, front: seq<byte>, rest: seq<byte>)
    requires |front| == 3 || (1 <= |front| < 3 && rest == [])
    ensures Chunked(write, front + rest) == write(front) + Chunked(write, rest)
  {
    var data := front + rest;
    assert data[..Taken(data)] == front && data[Taken(data)..] == rest;
  }

  lemma Associate(a: string, b: string, c: string)
    ensures (a + b) + c == a + (b + c)
  {
  }

  lemma {:induction false} ChunkedSplits(write: seq<byte> -> string, left: seq<byte>, right: seq<byte>)
    requires |left| % 3 == 0
    ensures Chunked(write, left + right) == Chunked(write, left) + Chunked(write, right)
  {
    if left == [] {
      assert left + right == right;
    } else {
      var front, rest := left[..3], left[3..];
      assert left == front + rest && left + right == front + (rest + right);
      calc {
        Chunked(write, left + right);
        { ChunkedStep(write, front, rest + right); }
        write(front) + Chunked(write, rest + right);
        { ChunkedSplits(write, rest, right); }
        write(front) + (Chunked(write, rest) + Chunked(write, right));
        { Associate(write(front), Chunked(write, rest), Chunked(write, right)); }
        write(front) + Chunked(write, rest) + Chunked(write, right);
        { ChunkedStep(write, front, rest); }
        Chunked(write, left) + Chunked(write, right);
      }
    }
  }

  lemma {:induction false} ChunkedLength(write: seq<byte> -> string, data: seq<byte>)
    requires forall d :: |write(d)| == 4
    ensures |Chunked(write, data)| == 4 * ((|data| + 2) / 3)
  {
    if data != [] {
      ChunkedLength(write, data[Taken(data)..]);
    }
  }

  // ---------- Round trips ----------

  lemma TableInverse(i: int)
    requires 0 <= i < 64
    ensures Value(TABLE[i]) == Some(i)
  {
  }

  lemma ValueInverse(c: char)
    requires Value(c).Some?
    ensures 0 <= Value(c).value < 64 && TABLE[Value(c).value] == c
  {
  }

  lemma SymbolSextet(v: byte)
    requires v < 64
    ensures Sextet(Symbol(v)) == Some(v)
  {
    assert v as int < 64;
    TableInverse(v as int);
  }

  lemma JoinParts(b0: byte, b1: byte, b2: byte)
    ensures var (v0, v1, v2, v3) := Parts(b0, b1, b2); Split(Join(v0, v1, v2, v3)) == (b0, b1, b2)
    ensures b2 == 0 ==> Parts(b0, b1, b2).3 == 0
    ensures b1 == b2 == 0 ==> Parts(b0, b1, b2).2 == 0
  {
  }

  lemma PartsSplit(v0: byte, v1: byte, v2: byte, v3: byte)
    requires v0 < 64 && v1 < 64 && v2 < 64 && v3 < 64
    ensures var (b0, b1, b2) := Split(Join(v0, v1, v2, v3)); Parts(b0, b1, b2) == (v0, v1, v2, v3)
  {
  }

  lemma UnpackParts(data: seq<byte>)
    requires 1 <= |data| <= 3
    ensures var (v0, v1, v2, v3) := Parts(data[0], ByteAt(data, 1), ByteAt(data, 2));
      && Unpack(v0, v1, v2, v3, |data|) == Some(data)
      && (|data| < 3 ==> v3 == 0) && (|data| < 2 ==> v2 == 0)
  {
    JoinParts(data[0], ByteAt(data, 1), ByteAt(data, 2));
    if |data| == 1 {
      assert data == [data[0]];
    } else if |data| == 2 {
      assert data == [data[0], data[1]];
    } else {
      assert data == [data[0], data[1], data[2]];
    }
  }

  lemma GroupRoundTrip(data: seq<byte>)
    requires 1 <= |data| <= 3
    ensures DecodeGroup(Group(data)) == Some(data)
  {
    var (v0, v1, v2, v3) := Parts(data[0], ByteAt(data, 1), ByteAt(data, 2));
    UnpackParts(data);
    SymbolSextet(v0);
    SymbolSextet(v1);
    SymbolSextet(v2);
    SymbolSextet(v3);
  }

  lemma ByteOfInt(v: int)
    requires 0 <= v < 64
    ensures (v as byte) as int == v
  {
  }

  lemma SmallByte(b: byte)
    requires b as int < 64
    ensures b < 64
  {
  }

  lemma SextetSymbol(c: char)
    requires Sextet(c).Some?
    ensures Sextet(c).value < 64 && Symbol(Sextet(c).value) == c
  {
    ValueInverse(c);
    ByteOfInt(Value(c).value);
    SmallByte(Sextet(c).value);
  }

  lemma GroupOfUnpack(v0: byte, v1: byte, v2: byte, v3: byte, n: nat)
    requires v0 < 64 && v1 < 64 && v2 < 64 && v3 < 64 && 1 <= n <= 3
    requires Unpack(v0, v1, v2, v3, n).Some?
    ensures |Unpack(v0, v1, v2, v3, n).value| == n
    ensures Group(Unpack(v0, v1, v2, v3, n).value) ==
            [Symbol(v0), Symbol(v1), if n >= 2 then Symbol(v2) else '=', if n >= 3 then Symbol(v3) else '=']
  {
    PartsSplit(v0, v1, v2, v3);
  }

  lemma DecodedGroup(s: string)
    requires |s| == 4 && DecodeGroup(s).Some?
    ensures 1 <= |DecodeGroup(s).value| <= 3 && Group(DecodeGroup(s).value) == s
  {
    assert s == [s[0], s[1], s[2], s[3]];
    SextetSymbol(s[0]);
    SextetSymbol(s[1]);
    if Sextet(s[2]) == None {
      GroupOfUnpack(Sextet(s[0]).value, Sextet(s[1]).value, 0, 0, 1);
    } else if Sextet(s[3]) == None {
      SextetSymbol(s[2]);
      GroupOfUnpack(Sextet(s[0]).value, Sextet(s[1]).value, Sextet(s[2]).value, 0, 2);
    } else {
      SextetSymbol(s[2]);
      SextetSymbol(s[3]);
      GroupOfUnpack(Sextet(s[0]).value, Sextet(s[1]).value, Sextet(s[2]).value, Sextet(s[3]).value, 3);
    }
  }

  lemma DecodeStep(front: string, rest: string)
    requires |front| == 4 && DecodeGroup(front).Some? && Decode(rest).Some?
    requires |DecodeGroup(front).value| == 3 || rest == ""
    ensures Decode(front + rest) == Some(DecodeGroup(front).value + Decode(rest).value)
  {
    var s := front + rest;
    if rest == "" {
      assert s == front && Decode(s) == DecodeGroup(s);
      assert DecodeGroup(front).value + [] == DecodeGroup(front).value;
    } else {
      assert s[..4] == front && s[4..] == rest;
    }
  }

  /** Every byte sequence is recovered from its text. */
  lemma {:induction false} DecodeInvertsEncode(data: seq<byte>)
    ensures Decode(Encode(data)) == Some(data)
  {
    if data != [] {
      var front, rest := data[..Taken(data)], data[Taken(data)..];
      GroupRoundTrip(front);
      DecodeInvertsEncode(rest);
      DecodeStep(Group(front), Encode(rest));
      assert Encode(data) == Group(front) + Encode(rest) && data == front + rest;
    }
  }

  /** Every text the decoder accepts is the text the formatter writes for its bytes. */
  lemma {:induction false} EncodeInvertsDecode(s: string)
    requires Decode(s).Some?
    ensures Encode(Decode(s).value) == s
  {
    if |s| == 4 {
      DecodedGroup(s);
      var data := Decode(s).value;
      ChunkedStep(Group, data, []);
      assert data + [] == data;
    } else if s != "" {
      DecodedGroup(s[..4]);
      EncodeInvertsDecode(s[4..]);
      ChunkedStep(Group, DecodeGroup(s[..4]).value, Decode(s[4..]).value);
      assert s == s[..4] + s[4..];
    }
  }

  /** Four characters for every three bytes begun. */
  lemma EncodeLength(data: seq<byte>)
    ensures |Encode(data)| == 4 * ((|data| + 2) / 3)
  {
    ChunkedLength(Group, data);
  }

  function Padding(s: string): nat {
    if s == "" || s[|s| - 1] != '=' then 0 else 1 + Padding(s[..|s| - 1])
  }

  /** A group boundary in the input is a group boundary in the text. */
  lemma EncodeSplits(left: seq<byte>, right: seq<byte>)
    requires |left| % 3 == 0
    ensures Encode(left + right) == Encode(left) + Encode(right)
  {
    ChunkedSplits(Group, left, right);
  }

  lemma SymbolIsNotPadding(v: byte)
    requires v < 64
    ensures Symbol(v) != '='
  {
    SymbolSextet(v);
  }

  lemma GroupPadding(data: seq<byte>)
    requires 1 <= |data| <= 3
    ensures Padding(Group(data)) == 3 - |data|
  {
    var g := Group(data);
    var (v0, v1, v2, v3) := Parts(data[0], ByteAt(data, 1), ByteAt(data, 2));
    SymbolIsNotPadding(v1);
    SymbolIsNotPadding(v2);
    SymbolIsNotPadding(v3);
    assert g[..3][..2] == g[..2];
    assert Padding(g[..2]) == 0;
    assert Padding(g[..3]) == if |data| >= 2 then 0 else 1;
  }

  lemma {:induction false} PaddingOfSuffix(s: string, t: string)
    requires t != "" && Padding(t) < |t|
    ensures Padding(s + t) == Padding(t)
  {
    var n := |t| - 1;
    if t[n] == '=' {
      assert (s + t)[..|s + t| - 1] == s + t[..n];
      PaddingOfSuffix(s, t[..n]);
    }
  }

  /** The number of padding characters is what is missing to a multiple of three bytes. */
  lemma {:induction false} PaddingCount(data: seq<byte>)
    ensures Padding(Encode(data)) == (3 - |data| % 3) % 3
  {
    if data != [] {
      var front, rest := data[..Taken(data)], data[Taken(data)..];
      GroupPadding(front);
      PaddingCount(rest);
      EncodeLength(rest);
      if rest == [] {
        assert Encode(data) == Group(front) + "" == Group(front);
      } else {
        ModShift(|rest|, 1, 3);
        PaddingOfSuffix(Group(front), Encode(rest));
      }
    }
  }

  // ---------- The loop ----------

  ghost function Rest(data: seq<byte>, i: nat): seq<byte> { if i < |data| then data[i..] else [] }

  /** The four characters the loop writes for the group at `i` carry the text one group further. */
  lemma LoopStep(data: seq<byte>, i: nat, written: string, g: string)
    requires i < |data| && written + Encode(Rest(data, i)) == Encode(data)
    requires var (v0, v1, v2, v3) := Parts(data[i], ByteAt(data, i + 1), ByteAt(data, i + 2));
      g == [Symbol(v0), Symbol(v1), if i + 1 < |data| then Symbol(v2) else '=', if i + 2 < |data| then Symbol(v3) else '=']
    ensures written + g + Encode(Rest(data, i + 3)) == Encode(data)
  {
    var now, rest := Rest(data, i), Rest(data, i + 3);
    var front := now[..Taken(now)];
    assert now == front + rest;
    ChunkedStep(Group, front, rest);
    assert g == Group(front);
    Associate(written, g, Encode(rest));
  }

  method Format(data: seq<byte>) returns (out: string)
    ensures out == Encode(data) && Decode(out) == Some(data)
  {
    DecodeInvertsEncode(data);
    out := "";
    var i := 0;
    while i < |data|
      invariant out + Encode(Rest(data, i)) == Encode(data)
      decreases |data| - i
    {
      var left := |data| - i;
      var b1 := if left >= 2 then data[i + 1] else 0;
      var b2 := if left >= 3 then data[i + 2] else 0;
      var (v0, v1, v2, v3) := Parts(data[i], b1, b2);
      ghost var written := out;
      var c2 := if left >= 2 then Symbol(v2) else '=';
      var c3 := if left >= 3 then Symbol(v3) else '=';
      out := out + [Symbol(v0), Symbol(v1), c2, c3];
      LoopStep(data, i, written, [Symbol(v0), Symbol(v1), c2, c3]);
      i := i + 3;
    }
  }
}
