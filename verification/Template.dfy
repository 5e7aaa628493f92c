/** The substitution language of configuration strings: `$$`, `$<digits>`, and plain characters. */
module Template {
  import opened Common
  import opened Modular

  /** `Bad` is a `$` followed by something else; nothing after it is looked at. */
  datatype Token = Literal(c: char) | Dollar | Argument(index: nat) | Bad

  datatype Error = NotEnoughArguments | ZeroArgument | Malformed

  predicate IsDigit(c: char) { '0' <= c <= '9' }

  function DigitValue(c: char): nat { if IsDigit(c) then c as int - '0' as int else 0 }

  /** Character `i` of a C++ string, which ends in a zero character. */
  function At(s: string, i: nat): char { if i < |s| then s[i] else '\0' }

  /** Where the digits at `start` end. */
  function DigitsEnd(s: string, start: nat): (end: nat)
    ensures start <= end && (start <= |s| ==> end <= |s|)
    decreases |s| - start
  {
    if IsDigit(At(s, start)) then DigitsEnd(s, start + 1) else start
  }

  /** The number the digits from `start` to `end` denote. */
  function Decimal(s: string, start: nat, end: nat): nat {
    if end <= start then 0 else Decimal(s, start, end - 1) * 10 + DigitValue(At(s, end - 1))
  }

  /** The tokens of the string from position `i` on. An index takes all digits there are. */
  function ParseFrom(s: string, i: nat): seq<Token>
    decreases |s| - i
  {
    if i >= |s| then []
    else if s[i] != '$' then [Literal(s[i])] + ParseFrom(s, i + 1)
    else if At(s, i + 1) == '$' then [Dollar] + ParseFrom(s, i + 2)
    else if !IsDigit(At(s, i + 1)) then [Bad]
    else
      var end := DigitsEnd(s, i + 1);
      [Argument(Decimal(s, i + 1, end) % SIZE_T)] + ParseFrom(s, end)
  }

  function Parse(s: string): seq<Token> { ParseFrom(s, 0) }

  type Outcome = Result<string, Error>

  /** What an index stands for: a template argument, or a capture of a match. */
  datatype Bindings = Arguments(values: seq<string>) | Captures(values: seq<string>) {
    /**
     * Arguments count from 1. Captures count from 0, the whole match; one past the
     * last is an unmatched, empty capture.
     */
    function Text(index: nat): Outcome {
      if index > |values| then Err(NotEnoughArguments)
      else if Arguments? then (if index == 0 then Err(ZeroArgument) else Ok(values[index - 1]))
      else if index == |values| then Ok("") else Ok(values[index])
    }
  }

  function Prepend(front: string, r: Outcome): Outcome {
    match r
    case Ok(rest) => Ok(front + rest)
    case Err(_) => r
  }

  function Sequence(first: Outcome, rest: Outcome): Outcome {
    if first.Err? then first else Prepend(first.value, rest)
  }

  function TokenText(t: Token, pick: Bindings): Outcome {
    match t
    case Literal(c) => Ok([c])
    case Dollar => Ok("$")
    case Argument(index) => pick.Text(index)
    case Bad => Err(Malformed)
  }

  /** The texts of the tokens one after the other, or the error of the first token that has none. */
  function Render(tokens: seq<Token>, pick: Bindings): Outcome {
    if tokens == [] then Ok("") else Sequence(TokenText(tokens[0], pick), Render(tokens[1..], pick))
  }

  function Substitute(s: string, args: seq<string>): Outcome { Render(Parse(s), Arguments(args)) }

  function SubstituteCaptures(s: string, captures: seq<string>): Outcome { Render(Parse(s), Captures(captures)) }

  // ---------- The scanners ----------

  /** Wrapping around at every digit is wrapping around once at the end. */
  lemma WrapStep(n: nat, d: nat)
    ensures (n % SIZE_T * 10 + d) % SIZE_T == (n * 10 + d) % SIZE_T
  {
    assert n * 10 + d == n % SIZE_T * 10 + d + n / SIZE_T * 10 * SIZE_T;
    ModShift(n % SIZE_T * 10 + d, n / SIZE_T * 10, SIZE_T);
  }

  lemma PrependTwice(a: string, b: string, r: Outcome)
    ensures Prepend(a, Prepend(b, r)) == Prepend(a + b, r)
  {
    if r.Ok? {
      assert a + (b + r.value) == a + b + r.value;
    }
  }

  lemma RenderFirst(t: Token, rest: seq<Token>, pick: Bindings)
    ensures Render([t] + rest, pick) == Sequence(TokenText(t, pick), Render(rest, pick))
  {
    assert ([t] + rest)[1..] == rest;
  }

  /** Reads the digits at `start`; the value wraps around like the source's `size_t`. */
  method ReadIndex(s: string, start: nat) returns (index: nat, end: nat)
    requires start < |s| && IsDigit(s[start])
    ensures end == DigitsEnd(s, start) && start < end <= |s|
    ensures index == Decimal(s, start, end) % SIZE_T
  {
    index, end := 0, start;
    while IsDigit(At(s, end))
      invariant start <= end <= |s| && (end == start ==> IsDigit(At(s, end)))
      invariant DigitsEnd(s, end) == DigitsEnd(s, start)
      invariant index == Decimal(s, start, end) % SIZE_T
      decreases |s| - end
    {
      WrapStep(Decimal(s, start, end), DigitValue(s[end]));
      index := (index * 10 + DigitValue(s[end])) % SIZE_T;
      end := end + 1;
    }
  }

  /** What has been written so far and what is left of the string make up the whole result. */
  ghost predicate Remaining(s: string, i: nat, out: string, pick: Bindings, total: Outcome) {
    i <= |s| && total == Prepend(out, Render(ParseFrom(s, i), pick))
  }

  lemma RemainingStart(s: string, pick: Bindings)
    ensures Remaining(s, 0, "", pick, Render(Parse(s), pick))
  {
    if Render(Parse(s), pick).Ok? {
      assert "" + Render(Parse(s), pick).value == Render(Parse(s), pick).value;
    }
  }

  lemma RemainingEnd(s: string, i: nat, out: string, pick: Bindings, total: Outcome)
    requires i >= |s| && Remaining(s, i, out, pick, total)
    ensures total == Ok(out)
  {
    assert out + "" == out;
  }

  /** Past a token: its text has been written, or its error is the result. */
  lemma RemainingToken(s: string, at: nat, next: nat, token: Token, out: string, pick: Bindings, total: Outcome)
    requires Remaining(s, at, out, pick, total) && next <= |s|
    requires ParseFrom(s, at) == [token] + ParseFrom(s, next)
    ensures var text := TokenText(token, pick);
      if text.Ok? then Remaining(s, next, out + text.value, pick, total) else total == text
  {
    var text, rest := TokenText(token, pick), Render(ParseFrom(s, next), pick);
    RenderFirst(token, ParseFrom(s, next), pick);
    if text.Ok? {
      PrependTwice(out, text.value, rest);
    }
  }

  lemma LiteralStep(s: string, at: nat, out: string, pick: Bindings, total: Outcome)
    requires Remaining(s, at, out, pick, total) && at < |s| && s[at] != '$'
    ensures Remaining(s, at + 1, out + [s[at]], pick, total)
  {
    RemainingToken(s, at, at + 1, Literal(s[at]), out, pick, total);
  }

  lemma DollarStep(s: string, at: nat, out: string, pick: Bindings, total: Outcome)
    requires Remaining(s, at, out, pick, total) && at + 1 < |s| && s[at] == s[at + 1] == '$'
    ensures Remaining(s, at + 2, out + [s[at + 1]], pick, total)
  {
    RemainingToken(s, at, at + 2, Dollar, out, pick, total);
  }

  lemma ArgumentStep(s: string, at: nat, out: string, pick: Bindings, total: Outcome)
    requires Remaining(s, at, out, pick, total) && at + 1 < |s| && s[at] == '$' && IsDigit(s[at + 1])
    ensures var end := DigitsEnd(s, at + 1);
      var text := pick.Text(Decimal(s, at + 1, end) % SIZE_T);
      if text.Ok? then Remaining(s, end, out + text.value, pick, total) else total == text
  {
    var end := DigitsEnd(s, at + 1);
    RemainingToken(s, at, end, Argument(Decimal(s, at + 1, end) % SIZE_T), out, pick, total);
  }

  lemma BadStep(s: string, at: nat, out: string, pick: Bindings, total: Outcome)
    requires Remaining(s, at, out, pick, total) && at < |s| && s[at] == '$'
    requires At(s, at + 1) != '$' && !IsDigit(At(s, at + 1))
    ensures total == Err(Malformed)
  {
    RenderFirst(Bad, [], pick);
    assert [Bad] + [] == [Bad] == ParseFrom(s, at);
  }

  method TemplateReplace(s: string, args: seq<string>) returns (r: Outcome)
    ensures r == Substitute(s, args)
  {
    var out, i := "", 0;
    ghost var pick, total := Arguments(args), Substitute(s, args);
    RemainingStart(s, pick);
    while i < |s|
      invariant Remaining(s, i, out, pick, total)
      decreases |s| - i
    {
      if s[i] == '$' {
        i := i + 1;
        if At(s, i) == '$' {
          DollarStep(s, i - 1, out, pick, total);
          out := out + [s[i]];
          assert Remaining(s, i + 1, out, pick, total);
        } else if IsDigit(At(s, i)) {
          ghost var at := i - 1;
          var idx;
          idx, i := ReadIndex(s, i);
          ArgumentStep(s, at, out, pick, total);
          i := i - 1;
          if idx > |args| {
            return Err(NotEnoughArguments);
          } else if idx == 0 {
            return Err(ZeroArgument);
          }
          assert pick.Text(idx) == Ok(args[idx - 1]);
          out := out + args[idx - 1];
          assert Remaining(s, i + 1, out, pick, total);
        } else {
          BadStep(s, i - 1, out, pick, total);
          return Err(Malformed);
        }
      } else {
        LiteralStep(s, i, out, pick, total);
        out := out + [s[i]];
        assert Remaining(s, i + 1, out, pick, total);
      }
      i := i + 1;
    }
    RemainingEnd(s, i, out, pick, total);
    return Ok(out);
  }

  lemma CaptureStep(s: string, at: nat, idx: nat, out: string, captures: seq<string>, total: Outcome)
    requires Remaining(s, at, out, Captures(captures), total)
    requires at + 1 < |s| && s[at] == '$' && IsDigit(s[at + 1])
    requires idx == Decimal(s, at + 1, DigitsEnd(s, at + 1)) % SIZE_T
    ensures if idx > |captures| then total.Err?
            else Remaining(s, DigitsEnd(s, at + 1), out + (if idx == |captures| then "" else captures[idx]),
                           Captures(captures), total)
  {
    ArgumentStep(s, at, out, Captures(captures), total);
  }

  /** The same scanner over the captures of a match; every error becomes the empty string. */
  method RegexReplace(s: string, captures: seq<string>) returns (r: string)
    ensures r == if SubstituteCaptures(s, captures).Ok? then SubstituteCaptures(s, captures).value else ""
  {
    var out, i := "", 0;
    ghost var pick, total := Captures(captures), SubstituteCaptures(s, captures);
    RemainingStart(s, pick);
    while i < |s|
      invariant Remaining(s, i, out, pick, total)
      decreases |s| - i
    {
      if s[i] == '$' {
        i := i + 1;
        if At(s, i) == '$' {
          DollarStep(s, i - 1, out, pick, total);
          out := out + [s[i]];
          assert Remaining(s, i + 1, out, pick, total);
        } else if IsDigit(At(s, i)) {
          ghost var at := i - 1;
          var idx;
          idx, i := ReadIndex(s, i);
          CaptureStep(s, at, idx, out, captures, total);
          i := i - 1;
          if idx > |captures| {
            return "";
          }
          out := out + (if idx == |captures| then "" else captures[idx]);
          assert Remaining(s, i + 1, out, pick, total);
        } else {
          BadStep(s, i - 1, out, pick, total);
          assert total == Err(Malformed);
          return "";
        }
      } else {
        LiteralStep(s, i, out, pick, total);
        out := out + [s[i]];
        assert Remaining(s, i + 1, out, pick, total);
      }
      i := i + 1;
    }
    RemainingEnd(s, i, out, pick, total);
    return out;
  }

  // ---------- When substitution fails ----------

  predicate Fails(t: Token, pick: Bindings) { TokenText(t, pick).Err? }

  /** Rendering fails with the error of the first token that has no text, and only then. */
  lemma {:induction false} RenderFailsIff(tokens: seq<Token>, pick: Bindings)
    ensures Render(tokens, pick).Err? <==> exists k :: 0 <= k < |tokens| && Fails(tokens[k], pick)
    ensures forall k :: 0 <= k < |tokens| && Fails(tokens[k], pick) && (forall j :: 0 <= j < k ==> !Fails(tokens[j], pick))
              ==> Render(tokens, pick) == Err(TokenText(tokens[k], pick).error)
  {
    if tokens != [] {
      var rest := tokens[1..];
      RenderFailsIff(rest, pick);
      if Fails(tokens[0], pick) {
        assert exists k :: 0 <= k < |tokens| && Fails(tokens[k], pick);
      } else {
        if k :| 0 <= k < |rest| && Fails(rest[k], pick) {
          assert Fails(tokens[k + 1], pick);
        }
        forall k | 0 <= k < |tokens| && Fails(tokens[k], pick)
          ensures Render(tokens, pick).Err?
          ensures (forall j :: 0 <= j < k ==> !Fails(tokens[j], pick)) ==>
                    Render(tokens, pick) == Err(TokenText(tokens[k], pick).error)
        {
          assert Fails(rest[k - 1], pick);
          assert forall j :: 0 <= j < |rest| ==> rest[j] == tokens[j + 1];
        }
      }
    }
  }

  ghost predicate UsesIndex(s: string, index: nat) { Argument(index) in Parse(s) }

  /** A template string is rejected exactly for a malformed `$`, an index of zero, or one beyond the arguments. */
  lemma SubstituteFailsIff(s: string, args: seq<string>)
    ensures Substitute(s, args).Err? <==>
            Bad in Parse(s) || exists index: nat :: UsesIndex(s, index) && (index == 0 || index > |args|)
  {
    var tokens, pick := Parse(s), Arguments(args);
    RenderFailsIff(tokens, pick);
    if k :| 0 <= k < |tokens| && Fails(tokens[k], pick) {
      assert tokens[k] == Bad || UsesIndex(s, tokens[k].index);
    }
    if Bad in tokens {
      var k :| 0 <= k < |tokens| && tokens[k] == Bad;
      assert Fails(tokens[k], pick);
    }
    if index: nat :| UsesIndex(s, index) && (index == 0 || index > |args|) {
      var k :| 0 <= k < |tokens| && tokens[k] == Argument(index);
      assert Fails(tokens[k], pick);
    }
  }

  // ---------- The two scanners agree ----------

  lemma {:induction false} RenderSame(tokens: seq<Token>, pick: Bindings, pick': Bindings)
    requires forall k :: 0 <= k < |tokens| ==> TokenText(tokens[k], pick) == TokenText(tokens[k], pick')
    ensures Render(tokens, pick) == Render(tokens, pick')
  {
    if tokens != [] {
      RenderSame(tokens[1..], pick, pick');
    }
  }

  /**
   * On the captures of a match, counted from 1, both scanners give the same text;
   * the capture scanner also accepts index 0 and the index one past the last capture.
   */
  lemma ScannersAgree(s: string, whole: string, args: seq<string>)
    ensures Substitute(s, args).Ok? ==> SubstituteCaptures(s, [whole] + args) == Substitute(s, args)
    ensures Substitute(s, args).Ok? <==>
            SubstituteCaptures(s, [whole] + args).Ok? && !UsesIndex(s, 0) && !UsesIndex(s, |args| + 1)
  {
    var tokens, pick, pick' := Parse(s), Arguments(args), Captures([whole] + args);
    RenderFailsIff(tokens, pick);
    RenderFailsIff(tokens, pick');
    forall k | 0 <= k < |tokens| && !Fails(tokens[k], pick)
      ensures TokenText(tokens[k], pick) == TokenText(tokens[k], pick')
    {
    }
    if Render(tokens, pick).Ok? {
      RenderSame(tokens, pick, pick');
      assert forall k :: 0 <= k < |tokens| && tokens[k].Argument? ==> !Fails(tokens[k], pick);
    } else {
      var k :| 0 <= k < |tokens| && Fails(tokens[k], pick);
      assert Fails(tokens[k], pick') || UsesIndex(s, tokens[k].index);
    }
  }
}
