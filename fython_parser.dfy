/** The recursive-descent parser of fython_parser.py: `_parse_node`,
    `_parse_args`, the top-level parse loop (the `_parse_program` that
    fython_runner.py calls) and `extract_quote`.

    The literal recognizers the parser consults but the file does not
    define (FUNCTION_KW, CLOCK_REGEX, FLOAT_REGEX, DURATION_REGEX,
    `_parse_24h_clock`, `float`, `_parse_duration`, `time.normalize_time`)
    are the fields of a `Literals` value passed in. A word that no rule
    recognizes becomes a string literal without moving the index, so the
    loops that call `_parse_node` repeat that step forever; the model
    reports this as NonTermination. */
module FythonParser {
  import opened FythonBase
  import opened FythonLexer
  import opened FythonClassifier
  import opened PyValues

  /** A program node: a built-in call with its argument sub-programs,
      a punctuation mark, an arithmetic operator, or a value to push. */
  datatype Node =
    | Func(name: string, args: seq<Arg>)
    | Punc(text: string)
    | Arith(op: string)
    | Var(value: Value)

  /** One argument of a call: the sub-program between two separators. */
  datatype Arg = Arg(nodes: seq<Node>)

  const Comma: Node := Punc(",")
  const Close: Node := Punc(")")
  const Open: Node := Punc("(")

  /** The recognizers the parser relies on. A converter answers None
      where the Python converter would raise. */
  datatype Literals = Literals(
    isFunctionName: string -> bool,          // word in FUNCTION_KW
    clockPattern: string -> bool,            // re.search(CLOCK_REGEX, word)
    parseClock: string -> Option<Value>,     // _parse_24h_clock(word)
    floatPattern: string -> bool,            // re.search(FLOAT_REGEX, word)
    parseFloat: string -> Option<real>,      // float(text)
    durationPattern: string -> bool,         // re.search(DURATION_REGEX, word)
    parseDuration: string -> Option<Value>,  // _parse_duration(word)
    normalizeTime: string -> Option<Value>)  // time.normalize_time(word)

  function Convert<T>(o: Option<T>, word: string): Result<T>
  {
    if o.Some? then Ok(o.value) else Err(ConversionFailed(word))
  }

  /** `"".join(word.split("_"))` */
  function StripUnderscores(word: string): string
  {
    Concat(SplitOn(word, '_'))
  }

  /** `word` with every occurrence of `c` deleted. */
  function Without(word: string, c: char): string
  {
    if word == [] then []
    else Without(word[..|word| - 1], c) + (if word[|word| - 1] == c then [] else [word[|word| - 1]])
  }

  lemma {:induction false} WithoutDeletes(word: string, c: char)
    ensures c !in Without(word, c)
    ensures forall y <- Without(word, c) :: y in word
  {
    if word != [] {
      WithoutDeletes(word[..|word| - 1], c);
    }
  }

  /** The float branch removes exactly the underscores: joining the
      pieces between them deletes every `_` and keeps everything else in
      order. */
  lemma {:induction false} StripUnderscoresDeletes(word: string)
    ensures StripUnderscores(word) == Without(word, '_')
    ensures '_' !in StripUnderscores(word)
  {
    WithoutDeletes(word, '_');
    if word != [] {
      var t, x := word[..|word| - 1], word[|word| - 1];
      assert Without(word, '_') == Without(t, '_') + (if x == '_' then [] else [x]);
      StripUnderscoresDeletes(t);
      assert word == t + [x];
      ConcatSplitPush(t, x, '_');
    }
  }

  /** A word some rule of `_parse_node` accepts. */
  predicate Recognized(lit: Literals, w: string)
  {
    || lit.isFunctionName(w)
    || IsSubstring(w, PunctuationChars)
    || IsSubstring(w, MathOps)
    || lit.clockPattern(w)
    || lit.floatPattern(w)
    || lit.durationPattern(w)
    || w in Keywords
  }

  /** `_parse_node(word_list, i)`: the node for `words[i]` and the index
      after it. Punctuation and operators are recognized by Python's
      substring test against the character strings. */
  function ParseNode(lit: Literals, words: seq<string>, i: nat): (r: Result<(Node, nat)>)
    ensures r.Ok? ==> i < |words| && i <= r.value.1 <= |words|
    ensures r.Ok? && r.value.0.Punc? ==> r.value.1 == i + 1 && r.value.0.text == words[i]
    decreases |words| - i, 0
  {
    if i >= |words| then Err(IndexOutOfRange)
    else
      var w := words[i];
      if lit.isFunctionName(w) then
        var a :- ArgsOf(lit, words, i + 1);
        Ok((Func(w, a.0), a.1))
      else if IsSubstring(w, PunctuationChars) then Ok((Punc(w), i + 1))
      else if IsSubstring(w, MathOps) then Ok((Arith(w), i + 1))
      else if lit.clockPattern(w) then
        var v :- Convert(lit.parseClock(w), w);
        Ok((Var(v), i + 1))
      else if lit.floatPattern(w) then
        var x :- Convert(lit.parseFloat(StripUnderscores(w)), w);
        Ok((Var(Num(x)), i + 1))
      else if lit.durationPattern(w) then
        var v :- Convert(lit.parseDuration(w), w);
        Ok((Var(v), i + 1))
      else if w in Keywords then
        var v :- Convert(lit.normalizeTime(w), w);
        Ok((Var(v), i + 1))
      else
        // unknown words are string literals; the index is not advanced
        Ok((Var(Str(w)), i))
  }

  /** `_parse_args(word_list, i)`: an argument list opened by `(` at `i`. */
  function ArgsOf(lit: Literals, words: seq<string>, i: nat): (r: Result<(seq<Arg>, nat)>)
    ensures r.Ok? ==> i + 2 <= r.value.1 <= |words| && words[i] == "(" && words[r.value.1 - 1] == ")"
    decreases |words| - i, 1
  {
    var first :- ParseNode(lit, words, i);
    if first.0 != Open then Err(ExpectedOpenParen(first.1))
    else
      var s :- Scan(lit, words, first.1, []);
      Ok((Arguments(s.0), s.1))
  }

  /** The loop of `_parse_args` from index `j`: the nodes read up to the
      first `)` (exclusive), after `seen`, and the index after the `)`. */
  function Scan(lit: Literals, words: seq<string>, j: nat, seen: seq<Node>): (r: Result<(seq<Node>, nat)>)
    ensures r.Ok? ==> j < r.value.1 <= |words| && words[r.value.1 - 1] == ")"
    decreases |words| - j, 2
  {
    var p :- ParseNode(lit, words, j);
    if p.1 == j then Err(NonTermination)
    else if p.0 == Close then Ok((seen, p.1))
    else Scan(lit, words, p.1, seen + [p.0])
  }

  /** The argument sub-programs: the pieces between the commas. */
  function Arguments(seen: seq<Node>): seq<Arg>
  {
    Wrap(SplitOn(seen, Comma))
  }

  function Wrap(parts: seq<seq<Node>>): (r: seq<Arg>)
    ensures |r| == |parts| && forall k :: 0 <= k < |r| ==> r[k].nodes == parts[k]
  {
    seq(|parts|, k requires 0 <= k < |parts| => Arg(parts[k]))
  }

  /** `_parse_args` as written: a loop that closes the current argument at
      each comma and stops at `)`. A step that does not move the index
      would repeat forever and is reported as NonTermination. */
  method ParseArgs(lit: Literals, words: seq<string>, i: nat) returns (r: Result<(seq<Arg>, nat)>)
    ensures r == ArgsOf(lit, words, i)
  {
    var first := ParseNode(lit, words, i);
    ArgsStep(lit, words, i, first);
    if first.Err? {
      return Err(first.error);
    }
    if first.value.0 != Open {
      return Err(ExpectedOpenParen(first.value.1));
    }
    r := ScanArgs(lit, words, first.value.1);
  }

  /** The loop of `_parse_args`: nodes are read from `j` up to the
      closing parenthesis, a comma closing the current argument. */
  method ScanArgs(lit: Literals, words: seq<string>, j: nat) returns (r: Result<(seq<Arg>, nat)>)
    ensures r == Closed(Scan(lit, words, j, []))
  {
    var idx := j;
    var args: seq<seq<Node>> := [];
    var prog: seq<Node> := [];
    ghost var seen: seq<Node> := [];
    var closed := false;
    while !closed
      invariant SplitOn(seen, Comma) == args + [prog]
      invariant !closed ==> Closed(Scan(lit, words, j, [])) == Closed(Scan(lit, words, idx, seen))
      invariant closed ==> Closed(Scan(lit, words, j, [])) == Ok((Arguments(seen), idx))
      decreases |words| - idx, if closed then 0 else 1
    {
      var p := ParseNode(lit, words, idx);
      ScanStep(lit, words, idx, seen, p);
      if p.Err? {
        return Err(p.error);
      }
      if p.value.1 == idx {
        return Err(NonTermination);
      }
      var node := p.value.0;
      idx := p.value.1;
      if node == Close {
        closed := true;
      } else {
        SplitOnPush(seen, node, Comma, args, prog);
        seen := seen + [node];
        if node == Comma {
          args, prog := args + [prog], [];
        } else {
          prog := prog + [node];
        }
      }
    }
    return Ok((Wrap(args + [prog]), idx));
  }

  /** One step of the scan, given the node parsed at `j`. */
  lemma ScanStep(lit: Literals, words: seq<string>, j: nat, seen: seq<Node>, p: Result<(Node, nat)>)
    requires p == ParseNode(lit, words, j)
    ensures p.Err? ==> Scan(lit, words, j, seen) == Err(p.error)
    ensures p.Ok? && p.value.1 == j ==> Scan(lit, words, j, seen) == Err(NonTermination)
    ensures p.Ok? && p.value.1 != j ==>
      Scan(lit, words, j, seen) ==
        if p.value.0 == Close then Ok((seen, p.value.1)) else Scan(lit, words, p.value.1, seen + [p.value.0])
  {
  }

  /** The argument list read from `i`, given the node parsed at `i`. */
  lemma ArgsStep(lit: Literals, words: seq<string>, i: nat, first: Result<(Node, nat)>)
    requires first == ParseNode(lit, words, i)
    ensures ArgsOf(lit, words, i) ==
      if first.Err? then Err(first.error)
      else if first.value.0 != Open then Err(ExpectedOpenParen(first.value.1))
      else Closed(Scan(lit, words, first.value.1, []))
  {
  }

  function Closed(s: Result<(seq<Node>, nat)>): Result<(seq<Arg>, nat)>
  {
    if s.Err? then Err(s.error) else Ok((Arguments(s.value.0), s.value.1))
  }

  /** The top-level parse loop from index `i`, with the nodes `acc`
      already parsed. */
  function ProgramFrom(lit: Literals, words: seq<string>, i: nat, acc: seq<Node>): Result<seq<Node>>
    decreases |words| - i
  {
    if i >= |words| then Ok(acc)
    else
      var p :- ParseNode(lit, words, i);
      if p.1 == i then Err(NonTermination)
      else ProgramFrom(lit, words, p.1, acc + [p.0])
  }

  /** `_parse_program(word_list)`: the first node is parsed before the loop
      test, so an empty word list is an IndexError. */
  function Program(lit: Literals, words: seq<string>): Result<seq<Node>>
  {
    if words == [] then Err(IndexOutOfRange) else ProgramFrom(lit, words, 0, [])
  }

  method ParseProgram(lit: Literals, words: seq<string>) returns (r: Result<seq<Node>>)
    ensures r == Program(lit, words)
  {
    var first := ParseNode(lit, words, 0);
    if first.Err? {
      return Err(first.error);
    }
    var program := [first.value.0];
    var idx := first.value.1;
    assert [] + program == program;
    while idx < |words|
      invariant idx <= |words|
      invariant idx == 0 ==> Program(lit, words) == Err(NonTermination)
      invariant idx > 0 ==> Program(lit, words) == ProgramFrom(lit, words, idx, program)
      decreases |words| - idx
    {
      var p := ParseNode(lit, words, idx);
      if p.Err? {
        return Err(p.error);
      }
      if p.value.1 == idx {
        return Err(NonTermination);
      }
      program := program + [p.value.0];
      idx := p.value.1;
    }
    return Ok(program);
  }

  /** Index movement of `_parse_node`: a punctuation mark, an operator or a
      recognized literal moves one word on, a call moves past its whole
      argument list, and exactly the unknown words stay in place. */
  lemma ParseNodeMoves(lit: Literals, words: seq<string>, i: nat)
    ensures i >= |words| ==> ParseNode(lit, words, i) == Err(IndexOutOfRange)
    ensures ParseNode(lit, words, i).Ok? ==>
      var n, k := ParseNode(lit, words, i).value.0, ParseNode(lit, words, i).value.1;
      && (n.Punc? ==> n.text == words[i] && k == i + 1)
      && (n.Arith? ==> n.op == words[i] && k == i + 1)
      && (n.Var? && k != i ==> k == i + 1)
      && (n.Func? ==> n.name == words[i] && i + 3 <= k && words[i + 1] == "(" && words[k - 1] == ")")
  {
    if i < |words| && lit.isFunctionName(words[i]) {
      assert ParseNode(lit, words, i).Ok? ==> ParseNode(lit, words, i).value.0.Func?;
    }
  }

  /** Exactly the unknown words leave the index in place, and they become
      string literals. */
  lemma ParseNodeStays(lit: Literals, words: seq<string>, i: nat)
    requires ParseNode(lit, words, i).Ok?
    ensures var n, k := ParseNode(lit, words, i).value.0, ParseNode(lit, words, i).value.1;
      && (k == i <==> !Recognized(lit, words[i]))
      && (k == i ==> n == Var(Str(words[i])))
  {
    var w := words[i];
    var r := ParseNode(lit, words, i);
    if lit.isFunctionName(w) {
      assert r.value.1 >= i + 2 by {
        var a := ArgsOf(lit, words, i + 1);
        assert a.Ok? && r == Ok((Func(w, a.value.0), a.value.1));
      }
    } else if IsSubstring(w, PunctuationChars) || IsSubstring(w, MathOps) {
      assert r.value.1 == i + 1;
    } else if lit.clockPattern(w) || lit.floatPattern(w) || lit.durationPattern(w) {
      assert r.value.1 == i + 1;
    } else if w in Keywords {
      assert r.value.1 == i + 1;
    } else {
      assert r == Ok((Var(Str(w)), i));
    }
  }

  /** A one-character operator or punctuation token from the lexer becomes
      an operator or punctuation node, unless it is a function name. */
  lemma ParseSeparatorToken(lit: Literals, words: seq<string>, i: nat)
    requires i < |words| && IsSeparatorToken(words[i]) && !lit.isFunctionName(words[i])
    ensures IsPunctuation(words[i][0]) ==> ParseNode(lit, words, i) == Ok((Punc(words[i]), i + 1))
    ensures IsMathOp(words[i][0]) ==> ParseNode(lit, words, i) == Ok((Arith(words[i]), i + 1))
  {
    var w := words[i];
    assert w == [w[0]];
    SeparatorsAreTheListedCharacters(w[0]);
    CharSubstring(w[0], PunctuationChars);
    CharSubstring(w[0], MathOps);
  }

  /** The float branch converts the word with every `_` deleted. */
  lemma FloatWordDropsUnderscores(lit: Literals, words: seq<string>, i: nat)
    requires i < |words|
    requires var w := words[i];
      && !lit.isFunctionName(w) && !IsSubstring(w, PunctuationChars) && !IsSubstring(w, MathOps)
      && !lit.clockPattern(w) && lit.floatPattern(w)
    ensures var w := words[i];
      ParseNode(lit, words, i) ==
        if lit.parseFloat(Without(w, '_')).Some? then Ok((Var(Num(lit.parseFloat(Without(w, '_')).value)), i + 1))
        else Err(ConversionFailed(w))
  {
    StripUnderscoresDeletes(words[i]);
  }

  /** Every word a successful `_parse_node` steps over is recognized. */
  lemma {:induction false} ParseNodeCovers(lit: Literals, words: seq<string>, i: nat)
    ensures ParseNode(lit, words, i).Ok? ==>
      forall m :: i <= m < ParseNode(lit, words, i).value.1 ==> Recognized(lit, words[m])
    decreases |words| - i, 0
  {
    if i < |words| && lit.isFunctionName(words[i]) {
      ArgsCovers(lit, words, i + 1);
    }
  }

  lemma {:induction false} ArgsCovers(lit: Literals, words: seq<string>, i: nat)
    ensures ArgsOf(lit, words, i).Ok? ==>
      forall m :: i <= m < ArgsOf(lit, words, i).value.1 ==> Recognized(lit, words[m])
    decreases |words| - i, 1
  {
    ParseNodeCovers(lit, words, i);
    var first := ParseNode(lit, words, i);
    if first.Ok? && first.value.0 == Open {
      ScanCovers(lit, words, first.value.1, []);
    }
  }

  lemma {:induction false} ScanCovers(lit: Literals, words: seq<string>, j: nat, seen: seq<Node>)
    ensures Scan(lit, words, j, seen).Ok? ==>
      forall m :: j <= m < Scan(lit, words, j, seen).value.1 ==> Recognized(lit, words[m])
    decreases |words| - j, 2
  {
    ParseNodeCovers(lit, words, j);
    var p := ParseNode(lit, words, j);
    if p.Ok? && p.value.1 != j && p.value.0 != Close {
      ScanCovers(lit, words, p.value.1, seen + [p.value.0]);
    }
  }

  lemma {:induction false} ProgramFromCovers(lit: Literals, words: seq<string>, i: nat, acc: seq<Node>)
    ensures ProgramFrom(lit, words, i, acc).Ok? ==> forall m :: i <= m < |words| ==> Recognized(lit, words[m])
    decreases |words| - i
  {
    if i < |words| {
      ParseNodeCovers(lit, words, i);
      var p := ParseNode(lit, words, i);
      if p.Ok? && p.value.1 != i {
        ProgramFromCovers(lit, words, p.value.1, acc + [p.value.0]);
      }
    }
  }

  /** A program parses only if every one of its words is recognized: an
      unknown word anywhere makes the parse fail or run forever. */
  lemma ProgramNeedsRecognizedWords(lit: Literals, words: seq<string>)
    ensures Program(lit, words).Ok? ==> words != [] && forall w <- words :: Recognized(lit, w)
  {
    ProgramFromCovers(lit, words, 0, []);
  }

  /** An unknown first word is parsed again and again. */
  lemma UnknownFirstWordRepeats(lit: Literals, words: seq<string>)
    requires words != [] && !Recognized(lit, words[0])
    ensures Program(lit, words) == Err(NonTermination)
  {
  }

  /** The nodes a successful scan returns start with `seen` and, when
      `seen` has no `)`, contain no `)`. */
  lemma {:induction false} ScanStopsAtClose(lit: Literals, words: seq<string>, j: nat, seen: seq<Node>)
    requires Close !in seen
    ensures Scan(lit, words, j, seen).Ok? ==> Close !in Scan(lit, words, j, seen).value.0
    decreases |words| - j
  {
    var p := ParseNode(lit, words, j);
    if p.Ok? && p.value.1 != j && p.value.0 != Close {
      ScanStopsAtClose(lit, words, p.value.1, seen + [p.value.0]);
    }
  }

  /** The sub-programs of the arguments, in order. */
  function Programs(args: seq<Arg>): (r: seq<seq<Node>>)
    ensures |r| == |args| && forall k :: 0 <= k < |r| ==> r[k] == args[k].nodes
  {
    seq(|args|, k requires 0 <= k < |args| => args[k].nodes)
  }

  /** Commas delimit the arguments: `c` top-level commas give `c + 1`
      arguments, no argument holds a comma, and joining the arguments with
      commas gives the scanned nodes back. */
  lemma ArgumentsStructure(seen: seq<Node>)
    ensures |Arguments(seen)| == Count(seen, Comma) + 1
    ensures forall a <- Arguments(seen), n <- a.nodes :: n != Comma
    ensures JoinWith(Programs(Arguments(seen)), Comma) == seen
  {
    SplitCount(seen, Comma);
    SplitPiecesAvoid(seen, Comma);
    SplitJoin(seen, Comma);
    var parts := SplitOn(seen, Comma);
    assert Programs(Wrap(parts)) == parts;
    forall a <- Arguments(seen), n <- a.nodes ensures n != Comma {
      var k :| 0 <= k < |parts| && a == Wrap(parts)[k];
      assert a.nodes == parts[k];
    }
  }

  /** `_parse_args` splits the nodes up to the first `)` at the commas, so
      no argument holds a comma or a `)`. */
  lemma ArgsStructure(lit: Literals, words: seq<string>, i: nat)
    ensures ArgsOf(lit, words, i).Ok? ==>
      var args := ArgsOf(lit, words, i).value.0;
      exists seen ::
        && Close !in seen
        && args == Arguments(seen)
        && |args| == Count(seen, Comma) + 1
        && JoinWith(Programs(args), Comma) == seen
        && forall a <- args, n <- a.nodes :: n != Comma && n != Close
  {
    var first := ParseNode(lit, words, i);
    if ArgsOf(lit, words, i).Ok? {
      var s := Scan(lit, words, first.value.1, []);
      ScanStopsAtClose(lit, words, first.value.1, []);
      var seen := s.value.0;
      ArgumentsStructure(seen);
      var parts := SplitOn(seen, Comma);
      SplitJoin(seen, Comma);
      forall a <- Arguments(seen), n <- a.nodes ensures n != Close {
        var k :| 0 <= k < |parts| && a == Wrap(parts)[k];
        assert n in parts[k];
        assert n in JoinWith(parts, Comma) by {
          JoinWithContainsPieces(parts, Comma, k);
        }
      }
    }
  }

  lemma {:induction false} JoinWithContainsPieces<T>(parts: seq<seq<T>>, d: T, k: nat)
    requires k < |parts|
    ensures forall x <- parts[k] :: x in JoinWith(parts, d)
  {
    if |parts| > 1 && k < |parts| - 1 {
      JoinWithContainsPieces(parts[..|parts| - 1], d, k);
    }
  }

  /** `f()` has exactly one argument, the empty program. */
  lemma EmptyCallHasOneEmptyArgument(lit: Literals, words: seq<string>, i: nat)
    requires i + 1 < |words| && words[i] == "(" && words[i + 1] == ")"
    requires !lit.isFunctionName("(") && !lit.isFunctionName(")")
    ensures ArgsOf(lit, words, i) == Ok(([Arg([])], i + 2))
  {
    assert IsSubstring("(", PunctuationChars);
    assert IsSubstring(")", PunctuationChars[1..]);
    assert ParseNode(lit, words, i) == Ok((Open, i + 1));
    assert ParseNode(lit, words, i + 1) == Ok((Close, i + 2));
    assert Scan(lit, words, i + 1, []) == Ok(([], i + 2));
    assert Wrap([[]]) == [Arg([])];
  }

  /** The token texts of a run of symbols. */
  function Words(symbols: seq<Symbol>): (r: seq<string>)
    ensures |r| == |symbols| && forall k :: 0 <= k < |r| ==> r[k] == symbols[k].word
  {
    seq(|symbols|, k requires 0 <= k < |symbols| => symbols[k].word)
  }

  /** `extract_quote(i, symbols, opening)` reading each symbol's text: the
      texts strictly between `i` and the first later symbol equal to the
      opening quote, glued together, and the index one past that closing
      symbol; running off the end is an IndexError. */
  method ExtractQuote(i: nat, symbols: seq<Symbol>, opening: Symbol) returns (r: Result<(string, nat)>)
    ensures r.Ok? <==> exists j :: i <= j < |symbols| && symbols[j].word == opening.word
    ensures r.Ok? ==>
      var j := r.value.1 - 1;
      && i <= j < |symbols|
      && symbols[j].word == opening.word
      && (forall k :: i <= k < j ==> symbols[k].word != opening.word)
      && r.value.0 == Concat(Words(symbols[i..j]))
    ensures r.Err? ==> r.error == IndexOutOfRange
  {
    var values: seq<string> := [];
    var idx := i;
    if idx >= |symbols| {
      return Err(IndexOutOfRange);
    }
    var symbol := symbols[idx];
    while symbol.word != opening.word
      invariant i <= idx < |symbols| && symbol == symbols[idx]
      invariant forall k :: i <= k < idx ==> symbols[k].word != opening.word
      invariant values == Words(symbols[i..idx])
      decreases |symbols| - idx
    {
      values := values + [symbol.word];
      idx := idx + 1;
      if idx >= |symbols| {
        return Err(IndexOutOfRange);
      }
      symbol := symbols[idx];
    }
    return Ok((Concat(values), idx + 1));
  }

  /** `extract_quote` as written reads `symbol.value`, an attribute the
      Symbol record does not have (its text is `word`). */
  function ExtractQuoteAsWritten(i: nat, symbols: seq<Symbol>, opening: Symbol): Result<(string, nat)>
  {
    if i >= |symbols| then Err(IndexOutOfRange) else Err(MissingAttribute("value"))
  }

  /** A closed quote that `ExtractQuote` extracts is an AttributeError as
      written. */
  lemma ExtractQuoteAsWrittenFails()
    ensures var q := Symbol("\"", Punctuation, 0, 0, 0);
      var symbols := [Symbol("hi", Name, 1, 0, 1), Symbol("\"", Punctuation, 3, 0, 3)];
      && symbols[1].word == q.word
      && ExtractQuoteAsWritten(0, symbols, q) == Err(MissingAttribute("value"))
  {
  }
}
