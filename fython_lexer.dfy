/** The lexer, `decompose_script` in fython_parser.py: script text to a
    flat list of token strings.

    Modelled as written, including its whitespace defect: after a run of
    identical blanks has been emitted, the word buffer still holds that
    run, so the run is emitted a second time at the next flush or is
    glued in front of the next word. */
module FythonLexer {
  import opened FythonBase

  const MathOps: string := "+-*/="
  const PunctuationChars: string := "(),:[].}{\"'#"
  const WhiteSpaceChars: string := "\t "
  const LineBreakChar: char := '\n'

  /** Letters, digits and the designator `_` accumulate into a word. */
  predicate IsWordChar(c: char) { IsAlnum(c) || c == '_' }

  /** One of the operators `+ - * / =`. */
  predicate IsMathOp(c: char) { c == '+' || c == '-' || c == '*' || c == '/' || c == '=' }

  /** One of the punctuation characters. */
  predicate IsPunctuation(c: char)
  {
    || c == '(' || c == ')' || c == ',' || c == ':' || c == '[' || c == ']' || c == '.'
    || c == '}' || c == '{' || c == '"' || c == '\'' || c == '#'
  }

  predicate IsSeparator(c: char) { IsMathOp(c) || IsPunctuation(c) || c == LineBreakChar }

  lemma SeparatorsAreTheListedCharacters(c: char)
    ensures IsMathOp(c) <==> c in MathOps
    ensures IsPunctuation(c) <==> c in PunctuationChars
  {
  }

  /** Space and tab are grouped into runs. */
  predicate IsBlank(c: char) { c == '\t' || c == ' ' }

  lemma BlanksAreTheListedCharacters(c: char)
    ensures IsBlank(c) <==> c in WhiteSpaceChars
  {
  }

  predicate IsLegal(c: char) { IsWordChar(c) || IsSeparator(c) || IsBlank(c) }

  /** One past the end of the run of copies of `script[i]` that starts at `i`. */
  function RunEnd(script: string, i: nat): (j: nat)
    requires i < |script|
    ensures i < j <= |script|
    ensures forall k :: i <= k < j ==> script[k] == script[i]
    ensures j == |script| || script[j] != script[i]
    decreases |script| - i
  {
    if i + 1 < |script| && script[i + 1] == script[i] then RunEnd(script, i + 1) else i + 1
  }

  /** Emit the pending word, if any (lines 54-56 and 62-64). */
  function Flush(acc: seq<string>, buffer: string): seq<string>
  {
    if |buffer| > 0 then acc + [buffer] else acc
  }

  /** The lexer's state machine from position `i`, with the pending word
      `buffer` and the tokens `acc` emitted so far. */
  function Lex(script: string, i: nat, buffer: string, acc: seq<string>): Result<seq<string>>
    requires i <= |script|
    decreases |script| - i
  {
    if i == |script| then Ok(Flush(acc, buffer))
    else
      var c := script[i];
      if IsWordChar(c) then Lex(script, i + 1, buffer + [c], acc)
      else if IsSeparator(c) then Lex(script, i + 1, [], Flush(acc, buffer) + [[c]])
      else if IsBlank(c) then
        var j := RunEnd(script, i);
        // the run is emitted and also stays in the buffer (line 67 without a reset after line 71)
        Lex(script, j, script[i..j], Flush(acc, buffer) + [script[i..j]])
      else Err(IllegalCharacter(c))
  }

  /** The token list `decompose_script` returns, or the error it raises. */
  function Tokens(script: string): Result<seq<string>>
  {
    Lex(script, 0, [], [])
  }

  /** The grouping loop of lines 67-70: the buffer restarts with the blank
      at `start` and takes every following copy of it; the result is the
      index of the last copy and the run. */
  method GroupRun(script: string, start: nat) returns (last: nat, run: string)
    requires start < |script| && IsBlank(script[start])
    ensures start <= last < |script| && last + 1 == RunEnd(script, start)
    ensures run == script[start..last + 1]
  {
    var c := script[start];
    last, run := start, [c];
    while last + 1 < |script| && script[last + 1] == c
      invariant start <= last < |script|
      invariant run == script[start..last + 1]
      invariant RunEnd(script, last) == RunEnd(script, start)
    {
      last := last + 1;
      run := run + [script[last]];
    }
  }

  method DecomposeScript(script: string) returns (r: Result<seq<string>>)
    ensures r == Tokens(script)
  {
    var wordList: seq<string> := [];
    var wordBuffer: string := [];
    var charIdx := 0;
    while charIdx < |script|
      invariant 0 <= charIdx <= |script|
      invariant Lex(script, charIdx, wordBuffer, wordList) == Tokens(script)
    {
      var c := script[charIdx];
      if IsWordChar(c) {
        wordBuffer := wordBuffer + [c];
      } else if IsSeparator(c) {
        wordList := Flush(wordList, wordBuffer) + [[c]];
        wordBuffer := [];
      } else if IsBlank(c) {
        LexBlankStep(script, charIdx, wordBuffer, wordList);
        wordList := Flush(wordList, wordBuffer);
        charIdx, wordBuffer := GroupRun(script, charIdx);
        wordList := wordList + [wordBuffer];
      } else {
        return Err(IllegalCharacter(c));
      }
      charIdx := charIdx + 1;
    }
    if |wordBuffer| > 0 {
      wordList := wordList + [wordBuffer];
    }
    return Ok(wordList);
  }

  // One step of the state machine per character class.

  lemma LexWordStep(s: string, i: nat, b: string, acc: seq<string>)
    requires i < |s| && IsWordChar(s[i])
    ensures Lex(s, i, b, acc) == Lex(s, i + 1, b + [s[i]], acc)
  {
  }

  lemma LexSeparatorStep(s: string, i: nat, b: string, acc: seq<string>)
    requires i < |s| && IsSeparator(s[i])
    ensures !IsWordChar(s[i]) && !IsBlank(s[i])
    ensures Lex(s, i, b, acc) == Lex(s, i + 1, [], Flush(acc, b) + [[s[i]]])
  {
  }

  lemma LexBlankStep(s: string, i: nat, b: string, acc: seq<string>)
    requires i < |s| && IsBlank(s[i])
    ensures !IsWordChar(s[i]) && !IsSeparator(s[i])
    ensures Lex(s, i, b, acc)
      == Lex(s, RunEnd(s, i), s[i..RunEnd(s, i)], Flush(acc, b) + [s[i..RunEnd(s, i)]])
  {
  }

  // ---------------------------------------------------------------------
  // Shapes of the tokens

  predicate WordChars(t: string) { forall k :: 0 <= k < |t| ==> IsWordChar(t[k]) }

  /** A word: letters, digits and underscores only. */
  predicate IsWordToken(t: string) { |t| > 0 && WordChars(t) }

  /** One operator, punctuation character or line break on its own. */
  predicate IsSeparatorToken(t: string) { |t| == 1 && IsSeparator(t[0]) }

  /** A run of one repeated blank character. */
  predicate IsBlankRun(t: string) { |t| > 0 && IsBlank(t[0]) && forall k :: 0 <= k < |t| ==> t[k] == t[0] }

  /** A blank run with word characters glued after it: what the stale
      buffer turns the next word into. */
  predicate IsRunThenWord(t: string)
  {
    exists n :: 0 < n <= |t| && IsBlankRun(t[..n]) && WordChars(t[n..])
  }

  predicate WellFormedToken(t: string) { IsSeparatorToken(t) || IsWordToken(t) || IsRunThenWord(t) }

  predicate WellFormedBuffer(b: string) { b == [] || IsWordToken(b) || IsRunThenWord(b) }

  lemma ExtendBuffer(b: string, c: char)
    requires WellFormedBuffer(b) && IsWordChar(c)
    ensures WellFormedBuffer(b + [c])
  {
    var b' := b + [c];
    if b == [] {
      assert b' == [c];
    } else if !IsWordToken(b) {
      var n :| 0 < n <= |b| && IsBlankRun(b[..n]) && WordChars(b[n..]);
      assert b'[..n] == b[..n];
      assert b'[n..] == b[n..] + [c];
    }
  }

  predicate AllWellFormed(ts: seq<string>) { forall t <- ts :: WellFormedToken(t) }

  /** Every token emitted from position `i` on is well formed. */
  predicate EmitsWellFormed(s: string, i: nat, b: string, acc: seq<string>)
    requires i <= |s|
  {
    Lex(s, i, b, acc).Ok? ==> AllWellFormed(Lex(s, i, b, acc).value)
  }

  lemma {:induction false} LexWellFormed(s: string, i: nat, b: string, acc: seq<string>)
    requires i <= |s|
    requires WellFormedBuffer(b) && AllWellFormed(acc)
    ensures EmitsWellFormed(s, i, b, acc)
    decreases |s| - i, 1
  {
    if i == |s| {
      assert Lex(s, i, b, acc) == Ok(Flush(acc, b));
    } else if IsWordChar(s[i]) {
      LexWellFormedWord(s, i, b, acc);
    } else if IsSeparator(s[i]) {
      LexWellFormedPunct(s, i, b, acc);
    } else if IsBlank(s[i]) {
      LexWellFormedBlank(s, i, b, acc);
    }
  }

  lemma {:induction false} LexWellFormedWord(s: string, i: nat, b: string, acc: seq<string>)
    requires i < |s| && IsWordChar(s[i])
    requires WellFormedBuffer(b) && AllWellFormed(acc)
    ensures EmitsWellFormed(s, i, b, acc)
    decreases |s| - i, 0
  {
    LexWordStep(s, i, b, acc);
    ExtendBuffer(b, s[i]);
    LexWellFormed(s, i + 1, b + [s[i]], acc);
  }

  lemma {:induction false} LexWellFormedPunct(s: string, i: nat, b: string, acc: seq<string>)
    requires i < |s| && IsSeparator(s[i])
    requires WellFormedBuffer(b) && AllWellFormed(acc)
    ensures EmitsWellFormed(s, i, b, acc)
    decreases |s| - i, 0
  {
    var c := s[i];
    var acc' := Flush(acc, b) + [[c]];
    LexSeparatorStep(s, i, b, acc);
    assert AllWellFormed(acc') by {
      assert [c][0] == c;
      assert IsSeparatorToken([c]);
    }
    LexWellFormed(s, i + 1, [], acc');
  }

  lemma {:induction false} LexWellFormedBlank(s: string, i: nat, b: string, acc: seq<string>)
    requires i < |s| && IsBlank(s[i])
    requires WellFormedBuffer(b) && AllWellFormed(acc)
    ensures EmitsWellFormed(s, i, b, acc)
    decreases |s| - i, 0
  {
    var j := RunEnd(s, i);
    var run := s[i..j];
    var acc' := Flush(acc, b) + [run];
    LexBlankStep(s, i, b, acc);
    assert IsRunThenWord(run) by {
      assert run[..|run|] == run && run[|run|..] == [];
    }
    assert AllWellFormed(acc');
    LexWellFormed(s, j, run, acc');
  }

  /** Every token is non-empty and is an operator, punctuation character or
      line break on its own, a word, or a blank run with a word glued after it. */
  lemma TokensWellFormed(script: string)
    ensures Tokens(script).Ok? ==>
      forall t <- Tokens(script).value :: |t| > 0 && WellFormedToken(t)
  {
    LexWellFormed(script, 0, [], []);
    if Tokens(script).Ok? {
      forall t <- Tokens(script).value ensures |t| > 0 {
        assert WellFormedToken(t);
      }
    }
  }

  // ---------------------------------------------------------------------
  // Illegal characters

  /** The position of the first character at or after `i` that belongs to
      no class, or `|s|` when there is none. */
  function FirstIllegal(s: string, i: nat): (f: nat)
    requires i <= |s|
    ensures i <= f <= |s|
    ensures forall k :: i <= k < f ==> IsLegal(s[k])
    ensures f < |s| ==> !IsLegal(s[f])
    decreases |s| - i
  {
    if i == |s| || !IsLegal(s[i]) then i else FirstIllegal(s, i + 1)
  }

  lemma {:induction false} FirstIllegalSkip(s: string, i: nat, j: nat)
    requires i <= j <= |s|
    requires forall k :: i <= k < j ==> IsLegal(s[k])
    ensures FirstIllegal(s, i) == FirstIllegal(s, j)
    decreases j - i
  {
    if i < j {
      FirstIllegalSkip(s, i + 1, j);
    }
  }

  /** The lexer fails exactly at the first illegal character. */
  predicate FailsAtFirstIllegal(s: string, i: nat, b: string, acc: seq<string>)
    requires i <= |s|
  {
    && (Lex(s, i, b, acc).Ok? <==> FirstIllegal(s, i) == |s|)
    && (FirstIllegal(s, i) < |s| ==> Lex(s, i, b, acc) == Err(IllegalCharacter(s[FirstIllegal(s, i)])))
  }

  lemma {:induction false} LexLegality(s: string, i: nat, b: string, acc: seq<string>)
    requires i <= |s|
    ensures FailsAtFirstIllegal(s, i, b, acc)
    decreases |s| - i, 1
  {
    if i < |s| {
      var c := s[i];
      if IsWordChar(c) {
        LexLegalityWord(s, i, b, acc);
      } else if IsSeparator(c) {
        LexLegalityPunct(s, i, b, acc);
      } else if IsBlank(c) {
        LexLegalityBlank(s, i, b, acc);
      }
    }
  }

  lemma {:induction false} LexLegalityWord(s: string, i: nat, b: string, acc: seq<string>)
    requires i < |s| && IsWordChar(s[i])
    ensures FailsAtFirstIllegal(s, i, b, acc)
    decreases |s| - i, 0
  {
    LexWordStep(s, i, b, acc);
    assert FirstIllegal(s, i) == FirstIllegal(s, i + 1);
    LexLegality(s, i + 1, b + [s[i]], acc);
  }

  lemma {:induction false} LexLegalityPunct(s: string, i: nat, b: string, acc: seq<string>)
    requires i < |s| && IsSeparator(s[i])
    ensures FailsAtFirstIllegal(s, i, b, acc)
    decreases |s| - i, 0
  {
    LexSeparatorStep(s, i, b, acc);
    assert FirstIllegal(s, i) == FirstIllegal(s, i + 1);
    LexLegality(s, i + 1, [], Flush(acc, b) + [[s[i]]]);
  }

  lemma {:induction false} LexLegalityBlank(s: string, i: nat, b: string, acc: seq<string>)
    requires i < |s| && IsBlank(s[i])
    ensures FailsAtFirstIllegal(s, i, b, acc)
    decreases |s| - i, 0
  {
    LexBlankStep(s, i, b, acc);
    var j := RunEnd(s, i);
    FirstIllegalSkip(s, i, j);
    LexLegality(s, j, s[i..j], Flush(acc, b) + [s[i..j]]);
  }

  /** The lexer succeeds exactly when every character is a letter, digit,
      `_`, operator, punctuation character, line break, space or tab;
      otherwise it reports the first character that is none of these. */
  lemma TokensLegality(script: string)
    ensures Tokens(script).Ok? <==> forall k :: 0 <= k < |script| ==> IsLegal(script[k])
    ensures Tokens(script).Err? ==>
      exists k :: 0 <= k < |script| && !IsLegal(script[k])
                  && (forall m :: 0 <= m < k ==> IsLegal(script[m]))
                  && Tokens(script).error == IllegalCharacter(script[k])
  {
    LexLegality(script, 0, [], []);
    var f := FirstIllegal(script, 0);
    if f < |script| {
      assert !IsLegal(script[f]);
    }
  }

  // ---------------------------------------------------------------------
  // Operators, punctuation and line breaks stand alone, in order

  /** The operator, punctuation and line-break characters of `s`, in order. */
  function SeparatorsOf(s: string): string
  {
    if s == [] then [] else (if IsSeparator(s[0]) then [s[0]] else []) + SeparatorsOf(s[1..])
  }

  /** The characters of the one-character separator tokens of `ts`, in order. */
  function SeparatorTokens(ts: seq<string>): string
  {
    if ts == [] then []
    else SeparatorTokens(ts[..|ts| - 1]) + (if IsSeparatorToken(ts[|ts| - 1]) then [ts[|ts| - 1][0]] else [])
  }

  lemma {:induction false} SeparatorTokensAppend(acc: seq<string>, t: string)
    ensures SeparatorTokens(acc + [t]) == SeparatorTokens(acc) + (if IsSeparatorToken(t) then [t[0]] else [])
  {
    assert (acc + [t])[..|acc|] == acc;
  }

  lemma FlushSeparators(acc: seq<string>, b: string)
    requires !IsSeparatorToken(b)
    ensures SeparatorTokens(Flush(acc, b)) == SeparatorTokens(acc)
  {
    SeparatorTokensAppend(acc, b);
  }

  lemma {:induction false} SeparatorsSkipBlanks(s: string, i: nat, j: nat)
    requires i <= j <= |s|
    requires forall k :: i <= k < j ==> IsBlank(s[k])
    ensures SeparatorsOf(s[i..]) == SeparatorsOf(s[j..])
    decreases j - i
  {
    if i < j {
      assert s[i..][1..] == s[i + 1..];
      SeparatorsSkipBlanks(s, i + 1, j);
    }
  }

  lemma SeparatorsOfCons(s: string, i: nat)
    requires i < |s|
    ensures SeparatorsOf(s[i..]) == (if IsSeparator(s[i]) then [s[i]] else []) + SeparatorsOf(s[i + 1..])
  {
    assert s[i..][1..] == s[i + 1..];
  }

  /** From position `i` on, the lexer emits exactly the separators of the
      rest of the script as one-character tokens. */
  predicate SeparatorsKept(s: string, i: nat, b: string, acc: seq<string>)
    requires i <= |s|
  {
    Lex(s, i, b, acc).Ok? ==>
      SeparatorTokens(Lex(s, i, b, acc).value) == SeparatorTokens(acc) + SeparatorsOf(s[i..])
  }

  lemma {:induction false} LexSeparators(s: string, i: nat, b: string, acc: seq<string>)
    requires i <= |s|
    requires !IsSeparatorToken(b)
    ensures SeparatorsKept(s, i, b, acc)
    decreases |s| - i, 1
  {
    if i == |s| {
      FlushSeparators(acc, b);
      assert s[i..] == [];
    } else if IsWordChar(s[i]) {
      LexSeparatorsWord(s, i, b, acc);
    } else if IsSeparator(s[i]) {
      LexSeparatorsPunct(s, i, b, acc);
    } else if IsBlank(s[i]) {
      LexSeparatorsBlank(s, i, b, acc);
    }
  }

  lemma {:induction false} LexSeparatorsWord(s: string, i: nat, b: string, acc: seq<string>)
    requires i < |s| && IsWordChar(s[i])
    requires !IsSeparatorToken(b)
    ensures SeparatorsKept(s, i, b, acc)
    decreases |s| - i, 0
  {
    var c := s[i];
    SeparatorsOfCons(s, i);
    LexWordStep(s, i, b, acc);
    assert !IsSeparatorToken(b + [c]) by {
      if |b + [c]| == 1 { assert (b + [c])[0] == c; }
    }
    LexSeparators(s, i + 1, b + [c], acc);
  }

  lemma {:induction false} LexSeparatorsPunct(s: string, i: nat, b: string, acc: seq<string>)
    requires i < |s| && IsSeparator(s[i])
    requires !IsSeparatorToken(b)
    ensures SeparatorsKept(s, i, b, acc)
    decreases |s| - i, 0
  {
    var c := s[i];
    var acc0 := Flush(acc, b);
    var acc' := acc0 + [[c]];
    LexSeparatorStep(s, i, b, acc);
    LexSeparators(s, i + 1, [], acc');
    assert SeparatorTokens(acc') == SeparatorTokens(acc) + [c] by {
      FlushSeparators(acc, b);
      SeparatorTokensAppend(acc0, [c]);
      assert [c][0] == c;
    }
    assert SeparatorsOf(s[i..]) == [c] + SeparatorsOf(s[i + 1..]) by {
      SeparatorsOfCons(s, i);
    }
  }

  lemma {:induction false} LexSeparatorsBlank(s: string, i: nat, b: string, acc: seq<string>)
    requires i < |s| && IsBlank(s[i])
    requires !IsSeparatorToken(b)
    ensures SeparatorsKept(s, i, b, acc)
    decreases |s| - i, 0
  {
    var j := RunEnd(s, i);
    var run := s[i..j];
    var acc' := Flush(acc, b) + [run];
    LexBlankStep(s, i, b, acc);
    assert !IsSeparatorToken(run) by {
      assert run[0] == s[i];
    }
    LexSeparators(s, j, run, acc');
    assert SeparatorTokens(acc') == SeparatorTokens(acc) by {
      FlushSeparators(acc, b);
      SeparatorTokensAppend(Flush(acc, b), run);
    }
    assert SeparatorsOf(s[i..]) == SeparatorsOf(s[j..]) by {
      SeparatorsSkipBlanks(s, i, j);
    }
  }

  /** Every operator, punctuation character and line break of the script
      becomes a one-character token of its own, in script order, and no
      other token is a single such character. */
  lemma SeparatorsStandAlone(script: string)
    ensures Tokens(script).Ok? ==> SeparatorTokens(Tokens(script).value) == SeparatorsOf(script)
  {
    assert script[0..] == script;
    LexSeparators(script, 0, [], []);
  }

  // ---------------------------------------------------------------------
  // Scripts without spaces or tabs

  predicate NoBlanksFrom(s: string, i: nat) { forall k :: i <= k < |s| ==> !IsBlank(s[k]) }

  /** No two neighbouring tokens are both words: each word is maximal. */
  predicate NoAdjacentWords(ts: seq<string>)
  {
    forall k :: 0 <= k < |ts| - 1 ==> !(IsWordToken(ts[k]) && IsWordToken(ts[k + 1]))
  }

  lemma FlushConcat(acc: seq<string>, b: string)
    ensures Concat(Flush(acc, b)) == Concat(acc) + b
  {
    ConcatAppend(acc, [b]);
    assert Concat([b]) == b;
  }

  /** Joining the tokens gives back what was emitted, the pending word and the rest of the script. */
  predicate JoinsBack(s: string, i: nat, b: string, acc: seq<string>)
    requires i <= |s|
  {
    Lex(s, i, b, acc).Ok? ==> Concat(Lex(s, i, b, acc).value) == Concat(acc) + b + s[i..]
  }

  lemma {:induction false} LexRoundTrip(s: string, i: nat, b: string, acc: seq<string>)
    requires i <= |s| && NoBlanksFrom(s, i)
    ensures JoinsBack(s, i, b, acc)
    decreases |s| - i, 1
  {
    if i == |s| {
      FlushConcat(acc, b);
      assert s[i..] == [];
    } else if IsWordChar(s[i]) {
      LexRoundTripWord(s, i, b, acc);
    } else if IsSeparator(s[i]) {
      LexRoundTripPunct(s, i, b, acc);
    }
  }

  lemma {:induction false} LexRoundTripWord(s: string, i: nat, b: string, acc: seq<string>)
    requires i < |s| && NoBlanksFrom(s, i) && IsWordChar(s[i])
    ensures JoinsBack(s, i, b, acc)
    decreases |s| - i, 0
  {
    var c := s[i];
    LexWordStep(s, i, b, acc);
    LexRoundTrip(s, i + 1, b + [c], acc);
    assert s[i..] == [c] + s[i + 1..];
  }

  lemma {:induction false} LexRoundTripPunct(s: string, i: nat, b: string, acc: seq<string>)
    requires i < |s| && NoBlanksFrom(s, i) && IsSeparator(s[i])
    ensures JoinsBack(s, i, b, acc)
    decreases |s| - i, 0
  {
    var c := s[i];
    var acc0 := Flush(acc, b);
    LexSeparatorStep(s, i, b, acc);
    LexRoundTrip(s, i + 1, [], acc0 + [[c]]);
    FlushConcat(acc, b);
    FlushConcat(acc0, [c]);
    assert Flush(acc0, [c]) == acc0 + [[c]];
    assert s[i..] == [c] + s[i + 1..];
  }

  /** Tokens that are words or lone separators, with no two words next to each other. */
  predicate BlankFreeTokens(ts: seq<string>)
  {
    && (forall t <- ts :: IsSeparatorToken(t) || IsWordToken(t))
    && NoAdjacentWords(ts)
  }

  /** What the lexer has emitted so far ends with no word, so a pending word can follow it. */
  predicate BlankFreeState(b: string, acc: seq<string>)
  {
    && (b == [] || IsWordToken(b))
    && BlankFreeTokens(acc)
    && (acc != [] ==> !IsWordToken(acc[|acc| - 1]))
  }

  predicate EmitsBlankFreeTokens(s: string, i: nat, b: string, acc: seq<string>)
    requires i <= |s|
  {
    Lex(s, i, b, acc).Ok? ==> BlankFreeTokens(Lex(s, i, b, acc).value)
  }

  lemma FlushBlankFree(b: string, acc: seq<string>)
    requires BlankFreeState(b, acc)
    ensures BlankFreeTokens(Flush(acc, b))
  {
    var ts := Flush(acc, b);
    forall k | 0 <= k < |ts| - 1 ensures !(IsWordToken(ts[k]) && IsWordToken(ts[k + 1])) {
      if k + 1 < |acc| {
        assert ts[k] == acc[k] && ts[k + 1] == acc[k + 1];
      }
    }
  }

  lemma {:induction false} LexBlankFreeShape(s: string, i: nat, b: string, acc: seq<string>)
    requires i <= |s| && NoBlanksFrom(s, i)
    requires BlankFreeState(b, acc)
    ensures EmitsBlankFreeTokens(s, i, b, acc)
    decreases |s| - i, 1
  {
    if i == |s| {
      assert Lex(s, i, b, acc) == Ok(Flush(acc, b));
      FlushBlankFree(b, acc);
    } else if IsWordChar(s[i]) {
      LexBlankFreeShapeWord(s, i, b, acc);
    } else if IsSeparator(s[i]) {
      LexBlankFreeShapePunct(s, i, b, acc);
    }
  }

  lemma {:induction false} LexBlankFreeShapeWord(s: string, i: nat, b: string, acc: seq<string>)
    requires i < |s| && NoBlanksFrom(s, i) && IsWordChar(s[i])
    requires BlankFreeState(b, acc)
    ensures EmitsBlankFreeTokens(s, i, b, acc)
    decreases |s| - i, 0
  {
    var b' := b + [s[i]];
    LexWordStep(s, i, b, acc);
    assert IsWordToken(b');
    LexBlankFreeShape(s, i + 1, b', acc);
  }

  lemma {:induction false} LexBlankFreeShapePunct(s: string, i: nat, b: string, acc: seq<string>)
    requires i < |s| && NoBlanksFrom(s, i) && IsSeparator(s[i])
    requires BlankFreeState(b, acc)
    ensures EmitsBlankFreeTokens(s, i, b, acc)
    decreases |s| - i, 0
  {
    var c := s[i];
    var acc0 := Flush(acc, b);
    var acc' := acc0 + [[c]];
    LexSeparatorStep(s, i, b, acc);
    assert BlankFreeState([], acc') by {
      FlushBlankFree(b, acc);
      assert [c][0] == c && !IsWordChar(c);
      assert !IsWordToken([c]) && IsSeparatorToken([c]);
      forall k | 0 <= k < |acc'| - 1 ensures !(IsWordToken(acc'[k]) && IsWordToken(acc'[k + 1])) {
        if k + 1 < |acc0| {
          assert acc'[k] == acc0[k] && acc'[k + 1] == acc0[k + 1];
        }
      }
    }
    LexBlankFreeShape(s, i + 1, [], acc');
  }

  /** For a script with no space or tab, joining the tokens gives the
      script back, every token is a word or a lone operator, punctuation
      character or line break, and no word is split in two. */
  lemma TokensOfBlankFreeScript(script: string)
    requires NoBlanksFrom(script, 0)
    ensures Tokens(script).Ok? ==>
      var ts := Tokens(script).value;
      && Concat(ts) == script
      && (forall t <- ts :: IsSeparatorToken(t) || IsWordToken(t))
      && NoAdjacentWords(ts)
  {
    assert script[0..] == script;
    LexRoundTrip(script, 0, [], []);
    LexBlankFreeShape(script, 0, [], []);
  }

  // ---------------------------------------------------------------------
  // Blank runs

  /** `i` starts a run of one blank character. */
  predicate IsRunStart(s: string, i: nat) { i < |s| && IsBlank(s[i]) && (i == 0 || s[i - 1] != s[i]) }

  /** Every token emitted so far, and every blank run starting at or after `p`, is among the tokens. */
  predicate KeepsRuns(s: string, p: nat, b: string, acc: seq<string>)
    requires p <= |s|
  {
    Lex(s, p, b, acc).Ok? ==>
      var ts := Lex(s, p, b, acc).value;
      && (forall t <- acc :: t in ts)
      && (forall i :: p <= i < |s| && IsRunStart(s, i) ==> s[i..RunEnd(s, i)] in ts)
  }

  lemma {:induction false} LexKeepsRuns(s: string, p: nat, b: string, acc: seq<string>)
    requires p <= |s|
    ensures KeepsRuns(s, p, b, acc)
    decreases |s| - p, 1
  {
    if p == |s| {
      assert Lex(s, p, b, acc) == Ok(Flush(acc, b));
    } else if IsWordChar(s[p]) {
      LexKeepsRunsWord(s, p, b, acc);
    } else if IsSeparator(s[p]) {
      LexKeepsRunsPunct(s, p, b, acc);
    } else if IsBlank(s[p]) {
      LexKeepsRunsBlank(s, p, b, acc);
    }
  }

  lemma {:induction false} LexKeepsRunsWord(s: string, p: nat, b: string, acc: seq<string>)
    requires p < |s| && IsWordChar(s[p])
    ensures KeepsRuns(s, p, b, acc)
    decreases |s| - p, 0
  {
    LexWordStep(s, p, b, acc);
    LexKeepsRuns(s, p + 1, b + [s[p]], acc);
    assert !IsRunStart(s, p);
  }

  lemma {:induction false} LexKeepsRunsPunct(s: string, p: nat, b: string, acc: seq<string>)
    requires p < |s| && IsSeparator(s[p])
    ensures KeepsRuns(s, p, b, acc)
    decreases |s| - p, 0
  {
    var acc' := Flush(acc, b) + [[s[p]]];
    LexSeparatorStep(s, p, b, acc);
    LexKeepsRuns(s, p + 1, [], acc');
    assert forall t <- acc :: t in acc';
    assert !IsRunStart(s, p);
  }

  lemma {:induction false} LexKeepsRunsBlank(s: string, p: nat, b: string, acc: seq<string>)
    requires p < |s| && IsBlank(s[p])
    ensures KeepsRuns(s, p, b, acc)
    decreases |s| - p, 0
  {
    var j := RunEnd(s, p);
    var run := s[p..j];
    var acc' := Flush(acc, b) + [run];
    LexBlankStep(s, p, b, acc);
    LexKeepsRuns(s, j, run, acc');
    if Lex(s, j, run, acc').Ok? {
      var ts := Lex(s, j, run, acc').value;
      forall t <- acc ensures t in ts {
        assert t in acc';
      }
      assert run in acc';
      forall i | p <= i < |s| && IsRunStart(s, i) ensures s[i..RunEnd(s, i)] in ts {
        if i != p {
          assert j <= i;
        }
      }
    }
  }

  /** Each maximal run of one repeated blank character is emitted as one
      token (and, through the stale buffer, possibly again). */
  lemma BlankRunsAreTokens(script: string, i: nat)
    requires IsRunStart(script, i)
    ensures Tokens(script).Ok? ==> script[i..RunEnd(script, i)] in Tokens(script).value
  {
    LexKeepsRuns(script, 0, [], []);
  }

  lemma {:induction false} RunStartAtOrBefore(s: string, k: nat) returns (i: nat)
    requires k < |s| && IsBlank(s[k])
    ensures i <= k && IsRunStart(s, i) && IsBlankRun(s[i..RunEnd(s, i)])
  {
    if k == 0 || s[k - 1] != s[k] {
      i := k;
    } else {
      i := RunStartAtOrBefore(s, k - 1);
    }
  }

  /** A script that contains a space or tab always yields a token made of blanks only. */
  lemma BlankScriptHasBlankToken(script: string, k: nat)
    requires k < |script| && IsBlank(script[k])
    ensures Tokens(script).Ok? ==> exists t <- Tokens(script).value :: IsBlankRun(t)
  {
    var i := RunStartAtOrBefore(script, k);
    BlankRunsAreTokens(script, i);
  }

  /** Number of spaces and tabs in `s[i..]`. */
  function BlanksFrom(s: string, i: nat): nat
    decreases |s| - i
  {
    if i >= |s| then 0 else (if IsBlank(s[i]) then 1 else 0) + BlanksFrom(s, i + 1)
  }

  lemma {:induction false} BlanksOfRun(s: string, i: nat)
    requires i < |s| && IsBlank(s[i])
    ensures BlanksFrom(s, i) == (RunEnd(s, i) - i) + BlanksFrom(s, RunEnd(s, i))
    decreases |s| - i
  {
    if i + 1 < |s| && s[i + 1] == s[i] {
      assert RunEnd(s, i + 1) == RunEnd(s, i);
      BlanksOfRun(s, i + 1);
    }
  }

  lemma {:induction false} NoBlanksCount(s: string, i: nat)
    requires i <= |s|
    ensures BlanksFrom(s, i) == 0 <==> NoBlanksFrom(s, i)
    decreases |s| - i
  {
    if i < |s| {
      NoBlanksCount(s, i + 1);
    }
  }

  /** The joined output is as long as the emitted tokens, the pending word
      and the rest of the script, with every remaining blank counted twice. */
  predicate JoinedLength(s: string, i: nat, b: string, acc: seq<string>)
    requires i <= |s|
  {
    Lex(s, i, b, acc).Ok? ==>
      |Concat(Lex(s, i, b, acc).value)| == |Concat(acc)| + |b| + (|s| - i) + BlanksFrom(s, i)
  }

  lemma {:induction false} LexJoinedLength(s: string, i: nat, b: string, acc: seq<string>)
    requires i <= |s|
    ensures JoinedLength(s, i, b, acc)
    decreases |s| - i
  {
    if i == |s| {
      FlushConcat(acc, b);
    } else if IsWordChar(s[i]) {
      LexWordStep(s, i, b, acc);
      LexJoinedLength(s, i + 1, b + [s[i]], acc);
    } else if IsSeparator(s[i]) {
      var acc0 := Flush(acc, b);
      LexSeparatorStep(s, i, b, acc);
      LexJoinedLength(s, i + 1, [], acc0 + [[s[i]]]);
      FlushConcat(acc, b);
      FlushConcat(acc0, [s[i]]);
      assert Flush(acc0, [s[i]]) == acc0 + [[s[i]]];
    } else if IsBlank(s[i]) {
      var j := RunEnd(s, i);
      var acc0 := Flush(acc, b);
      LexBlankStep(s, i, b, acc);
      LexJoinedLength(s, j, s[i..j], acc0 + [s[i..j]]);
      FlushConcat(acc, b);
      FlushConcat(acc0, s[i..j]);
      BlanksOfRun(s, i);
    }
  }

  /** Joining the tokens gives every space and tab of the script twice. */
  lemma JoinedTokensRepeatBlanks(script: string)
    ensures Tokens(script).Ok? ==> |Concat(Tokens(script).value)| == |script| + BlanksFrom(script, 0)
  {
    LexJoinedLength(script, 0, [], []);
  }

  /** Joining the tokens gives the script back exactly when the script has
      no space or tab. */
  lemma RoundTripIffBlankFree(script: string)
    requires Tokens(script).Ok?
    ensures Concat(Tokens(script).value) == script <==> NoBlanksFrom(script, 0)
  {
    JoinedTokensRepeatBlanks(script);
    NoBlanksCount(script, 0);
    if NoBlanksFrom(script, 0) {
      TokensOfBlankFreeScript(script);
    }
  }

  /** The stale buffer at work: a leading space is emitted twice and the
      second copy is glued to the word, so joining the tokens does not give
      the script back. */
  lemma BlankThenWordIsDuplicated()
    ensures Tokens(" a") == Ok([" ", " a"])
    ensures Concat(Tokens(" a").value) != " a"
  {
    var s := " a";
    assert Lex(s, 2, " a", [" "]) == Ok([" ", " a"]) by {
      assert |s| == 2;
      assert Flush([" "], " a") == [" ", " a"];
    }
    assert Lex(s, 1, " ", [" "]) == Lex(s, 2, " a", [" "]) by {
      assert s[1] == 'a' && IsWordChar('a');
      assert " " + ['a'] == " a";
    }
    assert Lex(s, 0, [], []) == Lex(s, 1, " ", [" "]) by {
      assert s[0] == ' ' && !IsWordChar(' ') && !IsSeparator(' ') && IsBlank(' ');
      assert RunEnd(s, 0) == 1;
      assert s[0..1] == " ";
      assert Flush([], []) + [" "] == [" "];
    }
    assert Concat([" ", " a"]) == "  a";
  }

  /** Spaces and tabs are grouped separately, and a run is emitted twice
      when another run or the end of the script follows it. */
  lemma MixedBlanksAreDuplicated()
    ensures Tokens("  \t") == Ok(["  ", "  ", "\t", "\t"])
  {
    var s := "  \t";
    assert Lex(s, 3, "\t", ["  ", "  ", "\t"]) == Ok(["  ", "  ", "\t", "\t"]) by {
      assert |s| == 3;
      assert Flush(["  ", "  ", "\t"], "\t") == ["  ", "  ", "\t", "\t"];
    }
    assert Lex(s, 2, "  ", ["  "]) == Lex(s, 3, "\t", ["  ", "  ", "\t"]) by {
      assert s[2] == '\t' && !IsWordChar('\t') && !IsSeparator('\t') && IsBlank('\t');
      assert RunEnd(s, 2) == 3;
      assert s[2..3] == "\t";
      assert Flush(["  "], "  ") + ["\t"] == ["  ", "  ", "\t"];
    }
    assert Lex(s, 0, [], []) == Lex(s, 2, "  ", ["  "]) by {
      assert s[0] == ' ' && !IsWordChar(' ') && !IsSeparator(' ') && IsBlank(' ');
      assert RunEnd(s, 1) == 2;
      assert RunEnd(s, 0) == 2;
      assert s[0..2] == "  ";
      assert Flush([], []) + ["  "] == ["  "];
    }
  }
}
