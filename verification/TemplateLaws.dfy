/** Laws of the substitution language: escaping, printing tokens, and cutting strings. */
module TemplateLaws {
  import opened Common
  import opened Template

  // ---------- Positions in a concatenation ----------

  lemma {:induction false} DigitsEndShift(a: string, b: string, j: nat)
    requires j <= |b|
    ensures DigitsEnd(a + b, |a| + j) == |a| + DigitsEnd(b, j)
    decreases |b| - j
  {
    if IsDigit(At(b, j)) {
      DigitsEndShift(a, b, j + 1);
    }
  }

  lemma {:induction false} DecimalShift(a: string, b: string, i: nat, j: nat)
    ensures Decimal(a + b, |a| + i, |a| + j) == Decimal(b, i, j)
  {
    if i < j {
      DecimalShift(a, b, i, j - 1);
    }
  }

  lemma {:induction false} DecimalPrefix(a: string, b: string, i: nat, j: nat)
    requires j <= |a|
    ensures Decimal(a + b, i, j) == Decimal(a, i, j)
  {
    if i < j {
      DecimalPrefix(a, b, i, j - 1);
    }
  }

  lemma ArgumentAt(s: string, i: nat, end: nat, value: nat)
    requires i < |s| && s[i] == '$' && IsDigit(At(s, i + 1))
    requires end == DigitsEnd(s, i + 1) && value == Decimal(s, i + 1, end)
    ensures ParseFrom(s, i) == [Argument(value % SIZE_T)] + ParseFrom(s, end)
  {
  }

  lemma ArgumentShift(a: string, b: string, j: nat, end: nat)
    requires j < |b| && b[j] == '$' && IsDigit(At(b, j + 1)) && end == DigitsEnd(b, j + 1)
    requires ParseFrom(a + b, |a| + end) == ParseFrom(b, end)
    ensures ParseFrom(a + b, |a| + j) == ParseFrom(b, j)
  {
    var value := Decimal(b, j + 1, end);
    DigitsEndShift(a, b, j + 1);
    DecimalShift(a, b, j + 1, end);
    ArgumentAt(b, j, end, value);
    ArgumentAt(a + b, |a| + j, |a| + end, value);
  }

  lemma LiteralAt(s: string, i: nat)
    requires i < |s| && s[i] != '$'
    ensures ParseFrom(s, i) == [Literal(s[i])] + ParseFrom(s, i + 1)
  {
  }

  lemma DollarAt(s: string, i: nat)
    requires i + 1 < |s| && s[i] == s[i + 1] == '$'
    ensures ParseFrom(s, i) == [Dollar] + ParseFrom(s, i + 2)
  {
  }

  lemma BadAt(s: string, i: nat)
    requires i < |s| && s[i] == '$' && At(s, i + 1) != '$' && !IsDigit(At(s, i + 1))
    ensures ParseFrom(s, i) == [Bad]
  {
  }

  lemma {:induction false} ParseShift(a: string, b: string, j: nat)
    requires j <= |b|
    ensures ParseFrom(a + b, |a| + j) == ParseFrom(b, j)
    decreases |b| - j
  {
    if j < |b| {
      var s, i := a + b, |a| + j;
      assert s[i] == b[j] && At(s, i + 1) == At(b, j + 1);
      if b[j] != '$' {
        ParseShift(a, b, j + 1);
        LiteralAt(s, i);
        LiteralAt(b, j);
      } else if At(b, j + 1) == '$' {
        ParseShift(a, b, j + 2);
        DollarAt(s, i);
        DollarAt(b, j);
      } else if IsDigit(At(b, j + 1)) {
        var end := DigitsEnd(b, j + 1);
        ParseShift(a, b, end);
        ArgumentShift(a, b, j, end);
      } else {
        BadAt(s, i);
        BadAt(b, j);
      }
    }
  }

  lemma ParseLiteral(c: char, rest: string)
    requires c != '$'
    ensures Parse([c] + rest) == [Literal(c)] + Parse(rest)
  {
    ParseShift([c], rest, 0);
  }

  lemma ParseDollar(rest: string)
    ensures Parse("$$" + rest) == [Dollar] + Parse(rest)
  {
    ParseShift("$$", rest, 0);
  }

  lemma {:induction false} DigitsThrough(s: string, i: nat, j: nat)
    requires i <= j <= |s| && forall k :: i <= k < j ==> IsDigit(s[k])
    ensures DigitsEnd(s, i) == DigitsEnd(s, j)
    decreases j - i
  {
    if i < j {
      DigitsThrough(s, i + 1, j);
    }
  }

  /** An index takes all the digits there are, also those of the text that follows. */
  lemma ParseArgument(d: string, rest: string) returns (index: nat)
    requires d != "" && forall i :: 0 <= i < |d| ==> IsDigit(d[i])
    ensures Parse("$" + d + rest) == [Argument(index)] + ParseFrom(rest, DigitsEnd(rest, 0))
    ensures DigitsEnd(rest, 0) == 0 ==> index == Decimal(d, 0, |d|) % SIZE_T
  {
    var front, n := "$" + d, DigitsEnd(rest, 0);
    var s := front + rest;
    DigitsEndShift(front, rest, 0);
    DigitsThrough(s, 1, |front|);
    ParseShift(front, rest, n);
    assert At(s, 1) == d[0];
    index := Decimal(s, 1, |front| + n) % SIZE_T;
    if n == 0 {
      DecimalPrefix(front, rest, 1, |front|);
      DecimalShift("$", d, 0, |d|);
    }
  }

  // ---------- Escaping ----------

  function Escape(s: string): string {
    if s == "" then "" else (if s[0] == '$' then "$$" else [s[0]]) + Escape(s[1..])
  }

  /** With every `$` doubled a string stands for itself, whatever the arguments are. */
  lemma {:induction false} EscapedIsLiteral(s: string, bindings: Bindings)
    ensures Render(Parse(Escape(s)), bindings) == Ok(s)
  {
    if s != "" {
      var rest := Escape(s[1..]);
      EscapedIsLiteral(s[1..], bindings);
      if s[0] == '$' {
        ParseDollar(rest);
        RenderFirst(Dollar, Parse(rest), bindings);
      } else {
        ParseLiteral(s[0], rest);
        RenderFirst(Literal(s[0]), Parse(rest), bindings);
      }
      assert [s[0]] + s[1..] == s;
    }
  }

  // ---------- The spelling of numbers ----------

  /** The usual decimal spelling of a number. */
  function Digits(n: nat): (d: string)
    ensures d != "" && forall i :: 0 <= i < |d| ==> IsDigit(d[i])
  {
    var last := [('0' as int + n % 10) as char];
    if n < 10 then last else Digits(n / 10) + last
  }

  lemma {:induction false} DecimalOfDigits(n: nat)
    ensures Decimal(Digits(n), 0, |Digits(n)|) == n
  {
    var last := [('0' as int + n % 10) as char];
    if n >= 10 {
      DecimalOfDigits(n / 10);
      DecimalPrefix(Digits(n / 10), last, 0, |Digits(n / 10)|);
    }
  }

  // ---------- One token ----------

  /** A `$` followed by nothing but digits is one index, with the value of the digits. */
  lemma ParseDigits(d: string)
    requires d != "" && forall i :: 0 <= i < |d| ==> IsDigit(d[i])
    ensures Parse("$" + d) == [Argument(Decimal(d, 0, |d|) % SIZE_T)]
  {
    var read := ParseArgument(d, "");
    assert DigitsEnd("", 0) == 0 && ParseFrom("", 0) == [];
    assert "$" + d + "" == "$" + d;
  }

  /** The value a number has after wrapping around at 64 bits. */
  function Wrapped(index: nat): (w: nat)
    ensures w < 0x1_0000_0000_0000_0000
    ensures index < 0x1_0000_0000_0000_0000 ==> w == index
  {
    index % 0x1_0000_0000_0000_0000
  }

  lemma ParseIndex(index: nat)
    ensures Parse("$" + Digits(index)) == [Argument(Wrapped(index))]
  {
    ParseDigits(Digits(index));
    DecimalOfDigits(index);
  }

  lemma RenderOne(t: Token, bindings: Bindings)
    ensures Render([t], bindings) == TokenText(t, bindings)
  {
    assert [t][1..] == [];
    assert Render([t], bindings) == Sequence(TokenText(t, bindings), Ok(""));
    if TokenText(t, bindings).Ok? {
      assert TokenText(t, bindings).value + "" == TokenText(t, bindings).value;
    }
  }

  /** An index stands for the argument of that number, counted from 1; the number wraps around at 64 bits. */
  lemma IndexIsArgument(index: nat, args: seq<string>)
    ensures var i := Wrapped(index);
      Substitute("$" + Digits(index), args) ==
        if i > |args| then Err(NotEnoughArguments) else if i == 0 then Err(ZeroArgument) else Ok(args[i - 1])
  {
    ParseIndex(index);
    RenderOne(Argument(Wrapped(index)), Arguments(args));
  }

  /** In the second scanner it stands for the capture of that number, counted from 0 for the whole match. */
  lemma IndexIsCapture(index: nat, captures: seq<string>)
    ensures var i := Wrapped(index);
      SubstituteCaptures("$" + Digits(index), captures) ==
        if i > |captures| then Err(NotEnoughArguments) else if i == |captures| then Ok("") else Ok(captures[i])
  {
    ParseIndex(index);
    RenderOne(Argument(Wrapped(index)), Captures(captures));
  }

  lemma {:induction false} LeadingZeroIsNothing(d: string, end: nat)
    requires end <= |d|
    ensures Decimal("0" + d, 0, end + 1) == Decimal(d, 0, end)
  {
    if end == 0 {
      assert Decimal("0" + d, 0, 0) == 0 && At("0" + d, 0) == '0';
    } else {
      LeadingZeroIsNothing(d, end - 1);
      assert At("0" + d, end) == At(d, end - 1);
    }
  }

  /** A zero in front of an index changes nothing. */
  lemma LeadingZero(d: string)
    requires d != "" && forall i :: 0 <= i < |d| ==> '0' <= d[i] <= '9'
    ensures Parse("$0" + d) == Parse("$" + d)
  {
    ParseDigits(d);
    ParseDigits("0" + d);
    LeadingZeroIsNothing(d, |d|);
    assert "$" + ("0" + d) == "$0" + d;
  }

  /** A `$` at the end or before anything but a `$` or a digit is an error, whatever follows. */
  lemma LoneDollarIsMalformed(rest: string, bindings: Bindings)
    requires rest == "" || (rest[0] != '$' && !('0' <= rest[0] <= '9'))
    ensures Render(Parse("$" + rest), bindings) == Err(Malformed)
  {
    assert At("$" + rest, 1) == if rest == "" then '\0' else rest[0];
    RenderOne(Bad, bindings);
  }

  /** The usual spelling of twelve; an index takes both digits. */
  lemma TwelfthArgument(args: seq<string>)
    requires |args| >= 12
    ensures Substitute("$12", args) == Ok(args[11])
  {
    assert Digits(1) == "1";
    assert Digits(12) == "1" + "2" == "12";
    assert "$" + "12" == "$12";
    IndexIsArgument(12, args);
  }

  // ---------- Printing tokens, and reading them back ----------

  function Print(tokens: seq<Token>): string {
    if tokens == [] then "" else PrintToken(tokens[0]) + Print(tokens[1..])
  }

  function PrintToken(t: Token): string {
    match t
    case Literal(c) => [c]
    case Dollar => "$$"
    case Argument(index) => "$" + Digits(index)
    case Bad => "$"
  }

  ghost predicate Printable(tokens: seq<Token>) {
    forall t :: t in tokens ==> (t.Literal? && t.c != '$') || t.Dollar? || (t.Argument? && t.index < SIZE_T)
  }

  predicate LiteralDigit(t: Token) { t.Literal? && IsDigit(t.c) }

  ghost predicate AmbiguousAt(tokens: seq<Token>, k: nat) {
    k + 1 < |tokens| && tokens[k].Argument? && LiteralDigit(tokens[k + 1])
  }

  /** An index followed by a literal digit, which would be read as part of the index. */
  ghost predicate Ambiguous(tokens: seq<Token>) {
    exists k :: AmbiguousAt(tokens, k)
  }

  /** The number of literal digits in front. */
  function LeadingDigits(tokens: seq<Token>): (n: nat)
    ensures n <= |tokens| && (n > 0 <==> tokens != [] && LiteralDigit(tokens[0]))
  {
    if tokens == [] || !LiteralDigit(tokens[0]) then 0 else 1 + LeadingDigits(tokens[1..])
  }

  lemma NoDigitInFront(tokens: seq<Token>)
    requires Printable(tokens) && LeadingDigits(tokens) == 0
    ensures DigitsEnd(Print(tokens), 0) == 0
  {
    if tokens != [] {
      assert tokens[0] in tokens;
      assert PrintToken(tokens[0])[0] == Print(tokens)[0];
    }
  }

  lemma DigitInFront(c: char, s: string, n: nat)
    requires IsDigit(c) && DigitsEnd(s, 0) == n
    ensures DigitsEnd([c] + s, 0) == n + 1 && ParseFrom([c] + s, n + 1) == ParseFrom(s, n)
  {
    DigitsEndShift([c], s, 0);
    ParseShift([c], s, n);
  }

  lemma {:induction false} DigitsOfPrint(tokens: seq<Token>)
    requires Printable(tokens)
    ensures var n, s := LeadingDigits(tokens), Print(tokens);
      DigitsEnd(s, 0) == n && ParseFrom(s, n) == Parse(Print(tokens[n..]))
  {
    var n := LeadingDigits(tokens);
    if n == 0 {
      NoDigitInFront(tokens);
      assert tokens[0..] == tokens;
    } else {
      var c, rest := tokens[0].c, tokens[1..];
      DigitsOfPrint(rest);
      DigitInFront(c, Print(rest), n - 1);
      assert Print(tokens) == [c] + Print(rest);
      assert rest[n - 1..] == tokens[n..];
    }
  }

  /** A printed index takes the literal digits that follow it. */
  lemma ParsePrintedArgument(index: nat, rest: seq<Token>) returns (read: nat)
    requires Printable(rest) && index < SIZE_T
    ensures Parse("$" + Digits(index) + Print(rest)) == [Argument(read)] + Parse(Print(rest[LeadingDigits(rest)..]))
    ensures LeadingDigits(rest) == 0 ==> read == index
  {
    var d := Digits(index);
    read := ParseArgument(d, Print(rest));
    DigitsOfPrint(rest);
    DecimalOfDigits(index);
    assert LeadingDigits(rest) == 0 ==> read == Decimal(d, 0, |d|) % SIZE_T;
  }

  lemma ParsePrintStep(tokens: seq<Token>)
    requires tokens != [] && Printable(tokens)
    ensures Printable(tokens[1..])
    ensures var p, rest, n := Parse(Print(tokens)), tokens[1..], LeadingDigits(tokens[1..]);
      if tokens[0].Argument? && n > 0
      then |p| == 1 + |Parse(Print(rest[n..]))|
      else p == [tokens[0]] + Parse(Print(rest))
  {
    var rest := tokens[1..];
    assert tokens[0] in tokens;
    match tokens[0]
    case Literal(c) => ParseLiteral(c, Print(rest));
    case Dollar => ParseDollar(Print(rest));
    case Argument(index) =>
      var read := ParsePrintedArgument(index, rest);
      assert LeadingDigits(rest) == 0 ==> rest[LeadingDigits(rest)..] == rest;
  }

  lemma SameHead(t: Token, xs: seq<Token>, ys: seq<Token>, txs: seq<Token>, tys: seq<Token>)
    requires txs == [t] + xs && tys == [t] + ys
    ensures txs == tys <==> xs == ys
  {
    assert txs[1..] == xs && tys[1..] == ys;
  }

  lemma AmbiguousStep(tokens: seq<Token>)
    requires tokens != []
    ensures Ambiguous(tokens) <==> (tokens[0].Argument? && LeadingDigits(tokens[1..]) > 0) || Ambiguous(tokens[1..])
  {
    var rest := tokens[1..];
    if k: nat :| AmbiguousAt(tokens, k) {
      if k > 0 {
        assert AmbiguousAt(rest, k - 1);
      }
    }
    if k: nat :| AmbiguousAt(rest, k) {
      assert AmbiguousAt(tokens, k + 1);
    }
    if tokens[0].Argument? && LeadingDigits(rest) > 0 {
      assert AmbiguousAt(tokens, 0);
    }
  }

  lemma {:induction false} ParseOfPrintLength(tokens: seq<Token>)
    requires Printable(tokens)
    ensures |Parse(Print(tokens))| <= |tokens|
    decreases |tokens|
  {
    if tokens != [] {
      var rest := tokens[1..];
      ParsePrintStep(tokens);
      ParseOfPrintLength(if tokens[0].Argument? && LeadingDigits(rest) > 0 then rest[LeadingDigits(rest)..] else rest);
    }
  }

  /** Printed tokens are read back exactly when no index is followed by a literal digit. */
  lemma {:induction false} ParseInvertsPrintIff(tokens: seq<Token>)
    requires Printable(tokens)
    ensures Parse(Print(tokens)) == tokens <==> !Ambiguous(tokens)
    decreases |tokens|
  {
    if tokens != [] {
      var t, rest := tokens[0], tokens[1..];
      var n, read, whole := LeadingDigits(rest), Parse(Print(rest)), Parse(Print(tokens));
      ParsePrintStep(tokens);
      AmbiguousStep(tokens);
      if t.Argument? && n > 0 {
        ParseOfPrintLength(rest[n..]);
        assert |whole| < |tokens|;
      } else {
        ParseInvertsPrintIff(rest);
        SameHead(t, read, rest, whole, tokens);
      }
    }
  }

  // ---------- Cutting strings ----------

  /** Text starting with `next` can follow these tokens without changing them. */
  predicate Closed(tokens: seq<Token>, next: char) {
    Bad !in tokens && !(tokens != [] && tokens[|tokens| - 1].Argument? && IsDigit(next))
  }

  /** The cut between `a` and `b` goes through no token. */
  predicate CleanCut(a: string, b: string)
    requires b != ""
  {
    Closed(Parse(a), b[0])
  }

  lemma {:induction false} BadIsLast(s: string, i: nat)
    ensures forall k :: 0 <= k < |ParseFrom(s, i)| - 1 ==> ParseFrom(s, i)[k] != Bad
    decreases |s| - i
  {
    if i < |s| {
      if s[i] != '$' {
        BadIsLast(s, i + 1);
      } else if At(s, i + 1) == '$' {
        BadIsLast(s, i + 2);
      } else if IsDigit(At(s, i + 1)) {
        BadIsLast(s, DigitsEnd(s, i + 1));
      }
    }
  }

  /** Skipping digits skips at least one token. */
  lemma {:induction false} MergedIsShorter(s: string, i: nat)
    requires i < |s| && IsDigit(s[i])
    ensures |ParseFrom(s, DigitsEnd(s, i))| < |ParseFrom(s, i)|
    decreases |s| - i
  {
    if IsDigit(At(s, i + 1)) {
      MergedIsShorter(s, i + 1);
    }
  }

  lemma ConsCut(t: Token, front: seq<Token>, back: seq<Token>, whole: seq<Token>, next: char)
    requires t != Bad && (front == [] ==> !(t.Argument? && IsDigit(next)))
    ensures [t] + whole == [t] + front + back <==> whole == front + back
    ensures Closed([t] + front, next) <==> Closed(front, next)
  {
    assert ([t] + whole)[1..] == whole && ([t] + front + back)[1..] == front + back;
    assert forall x :: x in [t] + front <==> x == t || x in front;
  }

  /** Where the digits before a cut end, seen from the whole string. */
  lemma {:induction false} DigitsEndAtCut(a: string, b: string, i: nat)
    requires i <= |a| && b != ""
    ensures var end := DigitsEnd(a, i);
      DigitsEnd(a + b, i) == if end < |a| then end else |a| + DigitsEnd(b, 0)
    decreases |a| - i
  {
    if i == |a| {
      DigitsEndShift(a, b, 0);
    } else if IsDigit(a[i]) {
      DigitsEndAtCut(a, b, i + 1);
    }
  }

  lemma {:induction false} ParseOfCutFrom(a: string, b: string, i: nat)
    requires b != "" && i <= |a|
    ensures ParseFrom(a + b, i) == ParseFrom(a, i) + Parse(b) <==> Closed(ParseFrom(a, i), b[0])
    decreases |a| - i
  {
    if i == |a| {
      ParseShift(a, b, 0);
      assert ParseFrom(a, i) + Parse(b) == Parse(b);
    } else if a[i] != '$' {
      ParseOfCutFrom(a, b, i + 1);
      ConsCut(Literal(a[i]), ParseFrom(a, i + 1), Parse(b), ParseFrom(a + b, i + 1), b[0]);
    } else if At(a, i + 1) == '$' {
      ParseOfCutFrom(a, b, i + 2);
      ConsCut(Dollar, ParseFrom(a, i + 2), Parse(b), ParseFrom(a + b, i + 2), b[0]);
    } else if !IsDigit(At(a, i + 1)) {
      BadIsLast(a + b, i);
      assert ([Bad] + Parse(b))[0] == Bad;
    } else {
      var end := DigitsEnd(a, i + 1);
      ParseOfCutFrom(a, b, end);
      ArgumentCut(a, b, i, end);
    }
  }

  lemma ArgumentCut(a: string, b: string, i: nat, end: nat)
    requires b != "" && i + 1 < |a| && a[i] == '$' && IsDigit(a[i + 1]) && end == DigitsEnd(a, i + 1)
    requires ParseFrom(a + b, end) == ParseFrom(a, end) + Parse(b) <==> Closed(ParseFrom(a, end), b[0])
    ensures ParseFrom(a + b, i) == ParseFrom(a, i) + Parse(b) <==> Closed(ParseFrom(a, i), b[0])
  {
    DigitsEndAtCut(a, b, i + 1);
    if end == |a| && IsDigit(b[0]) {
      MergedCut(a, b, i);
    } else {
      var t := ArgumentAlone(a, b, i, end);
      ConsCut(t, ParseFrom(a, end), Parse(b), ParseFrom(a + b, end), b[0]);
    }
  }

  /** An index that ends before the cut, or at it with no digit following, is the same token in both strings. */
  lemma ArgumentAlone(a: string, b: string, i: nat, end: nat) returns (t: Token)
    requires i + 1 < |a| && a[i] == '$' && IsDigit(a[i + 1])
    requires end == DigitsEnd(a, i + 1) == DigitsEnd(a + b, i + 1)
    ensures t.Argument?
    ensures ParseFrom(a, i) == [t] + ParseFrom(a, end) && ParseFrom(a + b, i) == [t] + ParseFrom(a + b, end)
  {
    var value := Decimal(a, i + 1, end);
    t := Argument(value % SIZE_T);
    DecimalPrefix(a, b, i + 1, end);
    ArgumentAt(a, i, end, value);
    ArgumentAt(a + b, i, end, value);
  }

  lemma MergedCut(a: string, b: string, i: nat)
    requires b != "" && i + 1 < |a| && a[i] == '$' && IsDigit(a[i + 1])
    requires DigitsEnd(a, i + 1) == |a| && IsDigit(b[0]) && DigitsEnd(a + b, i + 1) == |a| + DigitsEnd(b, 0)
    ensures ParseFrom(a + b, i) != ParseFrom(a, i) + Parse(b) && !Closed(ParseFrom(a, i), b[0])
  {
    var m := DigitsEnd(b, 0);
    MergedIsShorter(b, 0);
    ParseShift(a, b, m);
    var before, joint := Decimal(a, i + 1, |a|), Decimal(a + b, i + 1, |a| + m);
    ArgumentAt(a, i, |a|, before);
    ArgumentAt(a + b, i, |a| + m, joint);
    assert ParseFrom(a, i) == [Argument(before % SIZE_T)];
    assert |ParseFrom(a + b, i)| == 1 + |ParseFrom(b, m)|;
  }

  /** Parsing distributes over a cut exactly when the cut goes through no token. */
  lemma ParseOfCutIff(a: string, b: string)
    requires b != ""
    ensures Parse(a + b) == Parse(a) + Parse(b) <==> CleanCut(a, b)
  {
    ParseOfCutFrom(a, b, 0);
  }

  lemma {:induction false} RenderOfAppend(first: seq<Token>, second: seq<Token>, bindings: Bindings)
    ensures Render(first + second, bindings) == Sequence(Render(first, bindings), Render(second, bindings))
  {
    var all := first + second;
    if first == [] {
      assert all == second;
      PrependNothing(Render(second, bindings));
    } else {
      RenderOfAppend(first[1..], second, bindings);
      assert all[1..] == first[1..] + second;
      var text, rest := TokenText(first[0], bindings), Render(first[1..], bindings);
      if text.Ok? && rest.Ok? {
        PrependTwice(text.value, rest.value, Render(second, bindings));
      }
    }
  }

  lemma PrependNothing(r: Outcome)
    ensures Prepend("", r) == r
  {
    if r.Ok? {
      assert "" + r.value == r.value;
    }
  }

  /** Substitution distributes over concatenation at every cut that splits no token. */
  lemma SubstituteOfCut(a: string, b: string, args: seq<string>)
    requires b != "" && CleanCut(a, b)
    ensures Substitute(a + b, args) == Sequence(Substitute(a, args), Substitute(b, args))
  {
    ParseOfCutIff(a, b);
    RenderOfAppend(Parse(a), Parse(b), Arguments(args));
  }
}
