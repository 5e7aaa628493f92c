/** What the queue thread does with one queued request. */
module ResourceMethod {
  import opened Common
  import opened Config
  import Text
  import Hex
  import Base64

  datatype Formatter = TextFormatter | HexFormatter | Base64Formatter

  function FormatterOf(name: string): Option<Formatter> {
    if name == "STRING" then Some(TextFormatter)
    else if name == "HEX" then Some(HexFormatter)
    else if name == "BASE64" then Some(Base64Formatter)
    else None
  }

  function Formatted(f: Formatter, data: seq<byte>): string {
    match f
    case TextFormatter => Text.Encode(data)
    case HexFormatter => Hex.Encode(data)
    case Base64Formatter => Base64.Encode(data)
  }

  /** The text as each format defines it: by its decoder, or byte by byte. */
  ghost predicate IsTextOf(f: Formatter, data: seq<byte>, text: string) {
    match f
    case TextFormatter => Text.Spells(data, text)
    case HexFormatter => Hex.Decode(text) == Some(data)
    case Base64Formatter => Base64.Decode(text) == Some(data)
  }

  lemma FormattedIs(f: Formatter, data: seq<byte>)
    ensures IsTextOf(f, data, Formatted(f, data))
  {
    match f
    case TextFormatter => Text.EncodeSpells(data);
    case HexFormatter => Hex.DecodeInvertsEncode(data);
    case Base64Formatter => Base64.DecodeInvertsEncode(data);
  }

  method Decode(f: Formatter, data: seq<byte>) returns (out: string)
    ensures out == Formatted(f, data) && IsTextOf(f, data, out)
  {
    match f
    case TextFormatter => out := Text.Format(data);
    case HexFormatter => out := Hex.Format(data);
    case Base64Formatter => out := Base64.Format(data);
  }

  /** A method of a resource, with its formatters already made. */
  datatype Handler = Handler(kind: MethodType, formatters: seq<Formatter>, store: bool, hasCmd: bool, logInput: bool)

  /** Makes the formatters of a configured method; `None` stands for the exception on an unknown format name. */
  method MakeHandler(m: MethodConfig) returns (r: Option<Handler>)
    ensures r.Some? <==> forall j :: 0 <= j < |m.formats| ==>
              m.formats[j] == "STRING" || m.formats[j] == "HEX" || m.formats[j] == "BASE64"
    ensures r.Some? ==>
      && r.value.kind == m.kind && r.value.store == m.store && r.value.logInput == m.cmdLogInput
      && r.value.hasCmd == (m.cmd != "") && |r.value.formatters| == |m.formats|
      && forall j :: 0 <= j < |m.formats| ==>
           && (m.formats[j] == "STRING" ==> r.value.formatters[j] == TextFormatter)
           && (m.formats[j] == "HEX" ==> r.value.formatters[j] == HexFormatter)
           && (m.formats[j] == "BASE64" ==> r.value.formatters[j] == Base64Formatter)
    ensures r.Some? && OneFormat(m) && r.value.hasCmd ==> |r.value.formatters| == 1
  {
    var formatters := [];
    for j := 0 to |m.formats|
      invariant |formatters| == j
      invariant forall l :: 0 <= l < j ==> FormatterOf(m.formats[l]) == Some(formatters[l])
    {
      var f := FormatterOf(m.formats[j]);
      if f == None {
        assert m.formats[j] != "STRING" && m.formats[j] != "HEX" && m.formats[j] != "BASE64";
        return None;
      }
      formatters := formatters + [f.value];
    }
    return Some(Handler(m.kind, formatters, m.store, m.cmd != "", m.cmdLogInput));
  }

  /**
   * What is left in the text stream after the configured command ran on it: given
   * the number of requests processed before, the number of the formatter, and the
   * text. A command that times out leaves its input.
   */
  type Exec = (nat, nat, string) -> string

  /** The text of one formatter after the command, if there is one. */
  function Final(h: Handler, exec: Exec, n: nat, j: nat, data: seq<byte>): string
    requires j < |h.formatters|
  {
    var text := Formatted(h.formatters[j], data);
    if h.hasCmd then exec(n, j, text) else text
  }

  /** The lines of the first `j` formatters; the input of the command is a line of its own when it is to be logged. */
  function Lines(h: Handler, exec: Exec, n: nat, j: nat, data: seq<byte>): seq<string>
    requires j <= |h.formatters|
  {
    if j == 0 then [] else
      Lines(h, exec, n, j - 1, data)
      + (if h.hasCmd && h.logInput then [Formatted(h.formatters[j - 1], data)] else [])
      + [Final(h, exec, n, j - 1, data)]
  }

  function Bytes(s: string): seq<byte> { seq(|s|, i requires 0 <= i < |s| => Text.ByteOf(s[i])) }

  /** The value a processed request stores: a PUT or POST its data, a GET the text of its first formatter. */
  function Stored(h: Handler, exec: Exec, n: nat, data: seq<byte>): Option<seq<byte>> {
    if !h.store then None
    else if h.kind == PUT || h.kind == POST then Some(data)
    else if h.kind == GET && |h.formatters| > 0 then Some(Bytes(Final(h, exec, n, 0, data)))
    else None
  }

  function Printed(h: Handler, exec: Exec, n: nat, data: seq<byte>): seq<string> {
    if h.kind == GET || h.kind == PUT || h.kind == POST then Lines(h, exec, n, |h.formatters|, data) else []
  }

  /** `line` is what formatter `j` leaves of the text `t`: the output of the command on it, if there is a command. */
  ghost predicate Leaves(h: Handler, exec: Exec, n: nat, j: nat, data: seq<byte>, t: string, line: string)
    requires j < |h.formatters|
  {
    IsTextOf(h.formatters[j], data, t) && line == if h.hasCmd then exec(n, j, t) else t
  }

  /** `line` is what formatter `j` leaves of the data. */
  ghost predicate IsLeft(h: Handler, exec: Exec, n: nat, j: nat, data: seq<byte>, line: string)
    requires j < |h.formatters|
  {
    exists t :: Leaves(h, exec, n, j, data, t, line)
  }

  /**
   * The lines in formatter order: for each formatter what it leaves of its text,
   * with the text itself on the line before when command input is logged.
   */
  ghost predicate LinesTell(h: Handler, exec: Exec, n: nat, data: seq<byte>, lines: seq<string>) {
    if h.hasCmd && h.logInput then
      && |lines| == 2 * |h.formatters|
      && forall j :: 0 <= j < |h.formatters| ==> Leaves(h, exec, n, j, data, lines[2 * j], lines[2 * j + 1])
    else
      && |lines| == |h.formatters|
      && forall j :: 0 <= j < |h.formatters| ==> IsLeft(h, exec, n, j, data, lines[j])
  }

  ghost predicate PrintTells(h: Handler, exec: Exec, n: nat, data: seq<byte>, lines: seq<string>) {
    if h.kind == GET || h.kind == PUT || h.kind == POST then LinesTell(h, exec, n, data, lines) else lines == []
  }

  /** The bytes are the characters of the line. */
  ghost predicate BytesOf(line: string, bytes: seq<byte>) {
    |bytes| == |line| && forall i :: 0 <= i < |line| && line[i] as int < 256 ==> bytes[i] as int == line[i] as int
  }

  /** The bytes are those of a line that formatter 0 leaves of the data. */
  ghost predicate BytesLeft(h: Handler, exec: Exec, n: nat, data: seq<byte>, bytes: seq<byte>)
    requires |h.formatters| > 0
  {
    exists line :: IsLeft(h, exec, n, 0, data, line) && BytesOf(line, bytes)
  }

  /** What is stored: the data of a PUT or POST, what the first formatter of a GET leaves, and nothing unless asked. */
  ghost predicate StoreTells(h: Handler, exec: Exec, n: nat, data: seq<byte>, stored: Option<seq<byte>>) {
    if h.store && (h.kind == PUT || h.kind == POST) then stored == Some(data)
    else if h.store && h.kind == GET && |h.formatters| > 0 then
      stored.Some? && BytesLeft(h, exec, n, data, stored.value)
    else stored == None
  }

  lemma FinalIs(h: Handler, exec: Exec, n: nat, j: nat, data: seq<byte>)
    requires j < |h.formatters|
    ensures Leaves(h, exec, n, j, data, Formatted(h.formatters[j], data), Final(h, exec, n, j, data))
    ensures IsLeft(h, exec, n, j, data, Final(h, exec, n, j, data))
  {
    FormattedIs(h.formatters[j], data);
    var t, line := Formatted(h.formatters[j], data), Final(h, exec, n, j, data);
    assert Leaves(h, exec, n, j, data, t, line);
  }

  lemma BytesIs(line: string)
    ensures BytesOf(line, Bytes(line))
  {
    forall i | 0 <= i < |line| && line[i] as int < 256
      ensures Bytes(line)[i] as int == line[i] as int
    {
      Text.ByteOfIs(line[i]);
    }
  }

  lemma StoredIs(h: Handler, exec: Exec, n: nat, data: seq<byte>)
    ensures StoreTells(h, exec, n, data, Stored(h, exec, n, data))
  {
    if h.store && h.kind == GET && |h.formatters| > 0 {
      FinalIs(h, exec, n, 0, data);
      BytesIs(Final(h, exec, n, 0, data));
    }
  }

  lemma FrontStays(before: seq<string>, logged: seq<string>, final: string)
    ensures |before + logged + [final]| == |before| + |logged| + 1
    ensures forall i :: 0 <= i < |before| ==> (before + logged + [final])[i] == before[i]
  {
  }

  lemma BackIs(before: seq<string>, logged: seq<string>, final: string)
    requires |logged| <= 1
    ensures var all := before + logged + [final];
      && |all| == |before| + |logged| + 1 && all[|all| - 1] == final
      && (|logged| == 1 ==> all[|before|] == logged[0])
  {
  }

  /** Where the lines of formatter `j` are among those of the first `m`. */
  lemma {:induction false} LinesAt(h: Handler, exec: Exec, n: nat, m: nat, data: seq<byte>, j: nat)
    requires j < m <= |h.formatters|
    ensures var lines := Lines(h, exec, n, m, data);
      if h.hasCmd && h.logInput
      then
        && |lines| == 2 * m
        && lines[2 * j] == Formatted(h.formatters[j], data) && lines[2 * j + 1] == Final(h, exec, n, j, data)
      else |lines| == m && lines[j] == Final(h, exec, n, j, data)
  {
    var before, final := Lines(h, exec, n, m - 1, data), Final(h, exec, n, m - 1, data);
    var logged := if h.hasCmd && h.logInput then [Formatted(h.formatters[m - 1], data)] else [];
    LineCount(h, exec, n, m - 1, data);
    if j < m - 1 {
      LinesAt(h, exec, n, m - 1, data, j);
      FrontStays(before, logged, final);
    } else {
      BackIs(before, logged, final);
    }
  }

  lemma PrintedIs(h: Handler, exec: Exec, n: nat, data: seq<byte>)
    ensures PrintTells(h, exec, n, data, Printed(h, exec, n, data))
  {
    var lines := Lines(h, exec, n, |h.formatters|, data);
    LineCount(h, exec, n, |h.formatters|, data);
    forall j | 0 <= j < |h.formatters|
      ensures h.hasCmd && h.logInput ==> Leaves(h, exec, n, j, data, lines[2 * j], lines[2 * j + 1])
    {
      LinesAt(h, exec, n, |h.formatters|, data, j);
      FinalIs(h, exec, n, j, data);
    }
    forall j | 0 <= j < |h.formatters|
      ensures !(h.hasCmd && h.logInput) ==> IsLeft(h, exec, n, j, data, lines[j])
    {
      LinesAt(h, exec, n, |h.formatters|, data, j);
      FinalIs(h, exec, n, j, data);
    }
  }

  /** The body both loops have in common: the lines of one more formatter, and its final text. */
  method AddLines(h: Handler, exec: Exec, n: nat, j: nat, data: seq<byte>, lines: seq<string>)
      returns (all: seq<string>, text: string)
    requires j < |h.formatters| && lines == Lines(h, exec, n, j, data)
    ensures all == Lines(h, exec, n, j + 1, data) && text == Final(h, exec, n, j, data)
  {
    all := lines;
    text := Decode(h.formatters[j], data);
    if h.hasCmd {
      if h.logInput {
        all := all + [text];
      }
      text := exec(n, j, text);
    }
    all := all + [text];
  }

  /** `stored` is what is handed to the resource's `setValue`, `lines` the output streams in order. */
  method HandleRequestQueueItem(h: Handler, exec: Exec, n: nat, data: seq<byte>)
      returns (stored: Option<seq<byte>>, lines: seq<string>)
    ensures stored == Stored(h, exec, n, data) && lines == Printed(h, exec, n, data)
    ensures PrintTells(h, exec, n, data, lines) && StoreTells(h, exec, n, data, stored)
  {
    stored, lines := None, [];
    match h.kind {
      case GET =>
        for j := 0 to |h.formatters|
          invariant lines == Lines(h, exec, n, j, data)
          invariant stored == if h.store && j > 0 then Some(Bytes(Final(h, exec, n, 0, data))) else None
        {
          var text;
          lines, text := AddLines(h, exec, n, j, data, lines);
          if h.store && j == 0 {
            stored := Some(Bytes(text));
          }
        }
      case PUT | POST =>
        for j := 0 to |h.formatters|
          invariant lines == Lines(h, exec, n, j, data)
        {
          var text;
          lines, text := AddLines(h, exec, n, j, data, lines);
        }
        if h.store {
          stored := Some(data);
        }
      case _ =>
    }
    StoredIs(h, exec, n, data);
    PrintedIs(h, exec, n, data);
  }

  // ---------- Facts about a whole request ----------

  /** One line for every formatter, and one more for every logged command input. */
  lemma {:induction false} LineCount(h: Handler, exec: Exec, n: nat, j: nat, data: seq<byte>)
    requires j <= |h.formatters|
    ensures |Lines(h, exec, n, j, data)| == (if h.hasCmd && h.logInput then 2 * j else j)
  {
    if j > 0 {
      LineCount(h, exec, n, j - 1, data);
    }
  }

  /** A GET that stores through the Text formatter and no command keeps a value of printable bytes as it is. */
  lemma StoredTextIsIdentity(h: Handler, exec: Exec, n: nat, data: seq<byte>)
    requires h.kind == GET && h.store && !h.hasCmd && |h.formatters| > 0 && h.formatters[0] == TextFormatter
    requires forall b :: b in data ==> Text.Printable(b)
    ensures Stored(h, exec, n, data) == Some(data)
  {
    Text.PrintablePrefix(data, |data|);
    assert data[|data|..] == [];
    var text := Text.Encode(data);
    assert |text| == |data| by {
      assert text[|data|..] == Text.Encode([]) == "";
    }
    forall i | 0 <= i < |data|
      ensures Bytes(text)[i] == data[i]
    {
      Text.CharByte(data[i]);
    }
    assert Bytes(text) == data;
  }
}
