/** Whole scripts through `evaluate_script`, with sample recognizers: the
    built-in names are the function names, and the digits `1` and `2` are
    the only float literals. */
module FythonScenarios {
  import opened FythonBase
  import opened PyValues
  import opened FythonLexer
  import opened FythonParser
  import opened FythonRunner

  function Digit(w: string): Option<real>
  {
    if w == "1" then Some(1.0) else if w == "2" then Some(2.0) else None
  }

  const Sample: Literals := Literals(
    w => w == "min" || w == "max" || w == "lookup",
    w => false,
    w => None,
    w => w == "1" || w == "2",
    Digit,
    w => false,
    w => None,
    w => None)

  /** `1+2` lexes to its three characters. */
  lemma OnePlusTwoTokens()
    ensures Tokens("1+2") == Ok(["1", "+", "2"])
  {
    var s := "1+2";
    assert Lex(s, 3, "2", ["1", "+"]) == Ok(["1", "+", "2"]) by {
      assert |s| == 3;
      assert Flush(["1", "+"], "2") == ["1", "+", "2"];
    }
    assert Lex(s, 2, [], ["1", "+"]) == Lex(s, 3, "2", ["1", "+"]) by {
      assert s[2] == '2' && IsWordChar('2');
      assert [] + ['2'] == "2";
    }
    assert Lex(s, 1, "1", []) == Lex(s, 2, [], ["1", "+"]) by {
      assert s[1] == '+' && !IsWordChar('+') && IsSeparator('+');
      assert Flush([], "1") + [['+']] == ["1", "+"];
    }
    assert Lex(s, 0, [], []) == Lex(s, 1, "1", []) by {
      assert s[0] == '1' && IsWordChar('1');
      assert [] + ['1'] == "1";
    }
  }

  /** A digit word is a float literal and moves the parser one word on. */
  lemma ParseDigit(words: seq<string>, i: nat)
    requires i < |words| && (words[i] == "1" || words[i] == "2")
    ensures ParseNode(Sample, words, i) == Ok((Var(Num(Digit(words[i]).value)), i + 1))
  {
    DigitWord(words[i]);
    FloatWordDropsUnderscores(Sample, words, i);
  }

  /** A digit word is neither punctuation nor an operator and has no underscore. */
  lemma DigitWord(w: string)
    requires w == "1" || w == "2"
    ensures !IsSubstring(w, PunctuationChars) && !IsSubstring(w, MathOps)
    ensures Without(w, '_') == w
  {
    assert w == [w[0]];
    CharSubstring(w[0], PunctuationChars);
    CharSubstring(w[0], MathOps);
    assert Without(w, '_') == w by {
      assert w[..0] == [];
    }
  }

  /** The tokens of `1+2` parse to value, operator, value. */
  lemma OnePlusTwoProgram(lit: Literals, words: seq<string>)
    requires lit == Sample && words == ["1", "+", "2"]
    ensures Program(lit, words) == Ok([Var(Num(1.0)), Arith("+"), Var(Num(2.0))])
  {
    var a, b := Var(Num(1.0)), Arith("+");
    DigitThenOperator(words, 0, []);
    assert [] + [a, b] == [a, b];
    OnePlusTwoLastStep(lit, words);
  }

  lemma OnePlusTwoLastStep(lit: Literals, words: seq<string>)
    requires lit == Sample && words == ["1", "+", "2"]
    ensures ProgramFrom(lit, words, 2, [Var(Num(1.0)), Arith("+")]) == Ok([Var(Num(1.0)), Arith("+"), Var(Num(2.0))])
  {
    var a, b, c := Var(Num(1.0)), Arith("+"), Var(Num(2.0));
    DigitStep(words, 2, [a, b]);
    assert [a, b] + [c] == [a, b, c];
    assert ProgramFrom(lit, words, 3, [a, b, c]) == Ok([a, b, c]);
  }

  /** A digit followed by `+` adds both to the program. */
  lemma DigitThenOperator(words: seq<string>, i: nat, acc: seq<Node>)
    requires i + 1 < |words| && (words[i] == "1" || words[i] == "2") && words[i + 1] == "+"
    ensures ProgramFrom(Sample, words, i, acc) ==
      ProgramFrom(Sample, words, i + 2, acc + [Var(Num(Digit(words[i]).value)), Arith("+")])
  {
    ParseDigit(words, i);
    assert IsSeparatorToken(words[i + 1]) && IsMathOp(words[i + 1][0]);
    ParseSeparatorToken(Sample, words, i + 1);
    ProgramTwoSteps(Sample, words, i, acc, Var(Num(Digit(words[i]).value)), Arith("+"));
  }

  /** Two nodes that each take one word are added to the program in order. */
  lemma ProgramTwoSteps(lit: Literals, words: seq<string>, i: nat, acc: seq<Node>, n: Node, m: Node)
    requires i + 1 < |words|
    requires ParseNode(lit, words, i) == Ok((n, i + 1)) && ParseNode(lit, words, i + 1) == Ok((m, i + 2))
    ensures ProgramFrom(lit, words, i, acc) == ProgramFrom(lit, words, i + 2, acc + [n, m])
  {
    ProgramStep(lit, words, i, acc, n, i + 1);
    ProgramStep(lit, words, i + 1, acc + [n], m, i + 2);
    assert acc + [n] + [m] == acc + [n, m];
  }

  /** A digit at the top level is added to the program. */
  lemma DigitStep(words: seq<string>, i: nat, acc: seq<Node>)
    requires i < |words| && (words[i] == "1" || words[i] == "2")
    ensures ProgramFrom(Sample, words, i, acc) == ProgramFrom(Sample, words, i + 1, acc + [Var(Num(Digit(words[i]).value))])
  {
    ParseDigit(words, i);
    ProgramStep(Sample, words, i, acc, Var(Num(Digit(words[i]).value)), i + 1);
  }

  /** One step of the top-level parse loop. */
  lemma ProgramStep(lit: Literals, words: seq<string>, i: nat, acc: seq<Node>, n: Node, k: nat)
    requires i < |words| && ParseNode(lit, words, i) == Ok((n, k)) && k != i
    ensures ProgramFrom(lit, words, i, acc) == ProgramFrom(lit, words, k, acc + [n])
  {
  }

  /** `1+2` evaluates to 3. */
  lemma OnePlusTwo(script: string)
    requires script == "1+2"
    ensures Pipeline(Sample, script, Null) == Ok(Num(3.0))
  {
    OnePlusTwoTokens();
    var words := Tokens(script).value;
    OnePlusTwoProgram(Sample, words);
    OnePlusTwoValue();
  }

  lemma OnePlusTwoValue()
    ensures Eval([Var(Num(1.0)), Arith("+"), Var(Num(2.0))], Null) == Ok(Num(3.0))
  {
  }

  /** `max(1,2)` lexes to the name, the parentheses, the comma and the digits. */
  lemma MaxCallTokens(s: string)
    requires s == "max(1,2)"
    ensures Tokens(s) == Ok(["max", "(", "1", ",", "2", ")"])
  {
    assert Lex(s, 0, [], []) == Lex(s, 1, "m", []) by {
      assert s[0] == 'm' && IsWordChar('m');
      assert [] + ['m'] == "m";
    }
    assert Lex(s, 1, "m", []) == Lex(s, 2, "ma", []) by {
      assert s[1] == 'a' && IsWordChar('a');
      assert "m" + ['a'] == "ma";
    }
    assert Lex(s, 2, "ma", []) == Lex(s, 3, "max", []) by {
      assert s[2] == 'x' && IsWordChar('x');
      assert "ma" + ['x'] == "max";
    }
    assert Lex(s, 3, "max", []) == Lex(s, 4, [], ["max", "("]) by {
      assert s[3] == '(' && !IsWordChar('(') && IsSeparator('(');
      assert Flush([], "max") + [['(']] == ["max", "("];
    }
    assert Lex(s, 4, [], ["max", "("]) == Lex(s, 5, "1", ["max", "("]) by {
      assert s[4] == '1' && IsWordChar('1');
      assert [] + ['1'] == "1";
    }
    assert Lex(s, 5, "1", ["max", "("]) == Lex(s, 6, [], ["max", "(", "1", ","]) by {
      assert s[5] == ',' && !IsWordChar(',') && IsSeparator(',');
      assert Flush(["max", "("], "1") + [[',']] == ["max", "(", "1", ","];
    }
    assert Lex(s, 6, [], ["max", "(", "1", ","]) == Lex(s, 7, "2", ["max", "(", "1", ","]) by {
      assert s[6] == '2' && IsWordChar('2');
      assert [] + ['2'] == "2";
    }
    assert Lex(s, 7, "2", ["max", "(", "1", ","]) == Lex(s, 8, [], ["max", "(", "1", ",", "2", ")"]) by {
      assert s[7] == ')' && !IsWordChar(')') && IsSeparator(')');
      assert Flush(["max", "(", "1", ","], "2") + [[')']] == ["max", "(", "1", ",", "2", ")"];
    }
    assert Lex(s, 8, [], ["max", "(", "1", ",", "2", ")"]) == Ok(["max", "(", "1", ",", "2", ")"]) by {
      assert |s| == 8;
    }
  }

  /** The argument list `(1,2)`: two arguments of one value each. */
  lemma MaxCallArguments(lit: Literals, words: seq<string>)
    requires lit == Sample && words == ["max", "(", "1", ",", "2", ")"]
    ensures ArgsOf(lit, words, 1) == Ok(([Arg([Var(Num(1.0))]), Arg([Var(Num(2.0))])], 6))
  {
    assert IsSeparatorToken(words[1]) && IsPunctuation(words[1][0]) && !lit.isFunctionName(words[1]);
    ParseSeparatorToken(lit, words, 1);
    ArgsStep(lit, words, 1, ParseNode(lit, words, 1));
    MaxCallScan(lit, words);
    TwoArguments(Var(Num(1.0)), Var(Num(2.0)));
  }

  /** The scan after `(` collects `1 , 2` and stops after the `)`. */
  lemma MaxCallScan(lit: Literals, words: seq<string>)
    requires lit == Sample && words == ["max", "(", "1", ",", "2", ")"]
    ensures Scan(lit, words, 2, []) == Ok(([Var(Num(1.0)), Comma, Var(Num(2.0))], 6))
  {
    var one := Var(Num(1.0));
    ScanDigitThenComma(words, 2, []);
    assert [] + [one, Comma] == [one, Comma];
    MaxCallScanFromTwo(lit, words);
  }

  /** A digit followed by a comma adds both to the nodes read. */
  lemma ScanDigitThenComma(words: seq<string>, j: nat, seen: seq<Node>)
    requires j + 1 < |words| && (words[j] == "1" || words[j] == "2") && words[j + 1] == ","
    ensures Scan(Sample, words, j, seen) ==
      Scan(Sample, words, j + 2, seen + [Var(Num(Digit(words[j]).value)), Comma])
  {
    var d := Var(Num(Digit(words[j]).value));
    assert Scan(Sample, words, j, seen) == Scan(Sample, words, j + 1, seen + [d]) by {
      ScanDigit(words, j, seen);
    }
    assert Scan(Sample, words, j + 1, seen + [d]) == Scan(Sample, words, j + 2, seen + [d] + [Comma]) by {
      ScanPastComma(Sample, words, j + 1, seen + [d]);
    }
    assert seen + [d] + [Comma] == seen + [d, Comma];
  }

  /** A comma in an argument list is added to the nodes read. */
  lemma ScanPastComma(lit: Literals, words: seq<string>, j: nat, seen: seq<Node>)
    requires j < |words| && words[j] == "," && !lit.isFunctionName(",")
    ensures Scan(lit, words, j, seen) == Scan(lit, words, j + 1, seen + [Comma])
  {
    assert IsSeparatorToken(words[j]) && IsPunctuation(words[j][0]);
    ScanSeparator(lit, words, j, seen);
  }

  lemma MaxCallScanFromTwo(lit: Literals, words: seq<string>)
    requires lit == Sample && words == ["max", "(", "1", ",", "2", ")"]
    ensures Scan(lit, words, 4, [Var(Num(1.0)), Comma]) == Ok(([Var(Num(1.0)), Comma, Var(Num(2.0))], 6))
  {
    var one, two := Var(Num(1.0)), Var(Num(2.0));
    ScanDigit(words, 4, [one, Comma]);
    assert [one, Comma] + [two] == [one, Comma, two];
    ScanSeparator(lit, words, 5, [one, Comma, two]);
  }

  /** A digit in an argument list is added to the nodes read. */
  lemma ScanDigit(words: seq<string>, j: nat, seen: seq<Node>)
    requires j < |words| && (words[j] == "1" || words[j] == "2")
    ensures Scan(Sample, words, j, seen) == Scan(Sample, words, j + 1, seen + [Var(Num(Digit(words[j]).value))])
  {
    ParseDigit(words, j);
    ScanStep(Sample, words, j, seen, ParseNode(Sample, words, j));
  }

  /** A punctuation token in an argument list ends the scan if it is `)`
      and is added to the nodes read otherwise. */
  lemma ScanSeparator(lit: Literals, words: seq<string>, j: nat, seen: seq<Node>)
    requires j < |words| && IsSeparatorToken(words[j]) && IsPunctuation(words[j][0])
    requires !lit.isFunctionName(words[j])
    ensures Scan(lit, words, j, seen) ==
      if words[j] == ")" then Ok((seen, j + 1)) else Scan(lit, words, j + 1, seen + [Punc(words[j])])
  {
    ParseSeparatorToken(lit, words, j);
    ScanStep(lit, words, j, seen, ParseNode(lit, words, j));
  }

  /** `x, y` splits into the two one-node arguments. */
  lemma TwoArguments(x: Node, y: Node)
    requires x != Comma && y != Comma
    ensures Arguments([x, Comma, y]) == [Arg([x]), Arg([y])]
  {
    SplitTwo(x, y);
    assert Wrap([[x], [y]]) == [Arg([x]), Arg([y])];
  }

  lemma SplitTwo(x: Node, y: Node)
    requires x != Comma && y != Comma
    ensures SplitOn([x, Comma, y], Comma) == [[x], [y]]
  {
    var empty: seq<Node> := [];
    SplitFirstAndComma(x);
    SplitOnPush([x, Comma], y, Comma, [[x]], empty);
    assert [x, Comma] + [y] == [x, Comma, y] && empty + [y] == [y];
    assert [[x]] + [[y]] == [[x], [y]];
  }

  lemma SplitFirstAndComma(x: Node)
    requires x != Comma
    ensures SplitOn([x, Comma], Comma) == [[x]] + [[]]
  {
    SplitFirst(x);
    SplitOnPush([x], Comma, Comma, [], [x]);
    assert [x] + [Comma] == [x, Comma];
  }

  lemma SplitFirst(x: Node)
    requires x != Comma
    ensures SplitOn([x], Comma) == [] + [[x]]
  {
    var empty: seq<Node> := [];
    assert SplitOn(empty, Comma) == [] + [empty];
    SplitOnPush(empty, x, Comma, [], empty);
    assert empty + [x] == [x];
  }

  /** `max(1,2)` parses to one call node. */
  lemma MaxCallProgram(lit: Literals, words: seq<string>)
    requires lit == Sample && words == ["max", "(", "1", ",", "2", ")"]
    ensures Program(lit, words) == Ok([Func("max", [Arg([Var(Num(1.0))]), Arg([Var(Num(2.0))])])])
  {
    var args := [Arg([Var(Num(1.0))]), Arg([Var(Num(2.0))])];
    MaxCallArguments(lit, words);
    assert ParseNode(lit, words, 0) == Ok((Func("max", args), 6));
    ProgramStep(lit, words, 0, [], Func("max", args), 6);
    assert [] + [Func("max", args)] == [Func("max", args)];
  }

  lemma MaxCallValue()
    ensures Eval([Func("max", [Arg([Var(Num(1.0))]), Arg([Var(Num(2.0))])])], Null) == Ok(Num(2.0))
  {
  }

  /** `max(1,2)` evaluates to 2. */
  lemma MaxCall(script: string)
    requires script == "max(1,2)"
    ensures Pipeline(Sample, script, Null) == Ok(Num(2.0))
  {
    MaxCallTokens(script);
    MaxCallProgram(Sample, Tokens(script).value);
    MaxCallValue();
  }

  /** With the sample recognizers no run of blanks is recognized. */
  lemma SampleIsBlankBlind()
    ensures BlankBlind(Sample)
  {
    forall w | IsBlankRun(w)
      ensures !Sample.isFunctionName(w) && !Sample.clockPattern(w)
              && !Sample.floatPattern(w) && !Sample.durationPattern(w)
    {
      assert IsBlank(w[0]);
    }
  }

  /** The same sum written with spaces fails: the lexer emits the spaces as
      tokens, and the parser cannot step over them. */
  lemma SpacedSumFails()
    ensures Pipeline(Sample, "1 + 2", Null).Err?
  {
    SampleIsBlankBlind();
    var s := "1 + 2";
    assert IsBlank(s[1]);
    ScriptsWithBlanksFail(Sample, s, Null, 1);
  }
}
