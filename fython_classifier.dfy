/** The classifier and position tracker of fython_parser.py:
    `classify_word` tags one token, `parse_symbols_from_words` tags every
    token and records where it starts.

    The members without a suffix are the evidently intended versions; the
    `AsWritten` members model the code as it stands, which cannot succeed
    (see README, "Findings"). */
module FythonClassifier {
  import opened FythonBase
  import opened FythonLexer

  datatype SymbolType =
    | Punctuation
    | Value
    | Name
    | WhitespaceSpacing
    | WhitespaceSeparator
    | LineBreak
    | MathOperation
    | Keyword

  /** The reserved words (fython_parser.py:11). */
  const Keywords: seq<string> := ["def", "if", "else", "elif", "and", "or", "not", "in", "for"]

  /** A classified token with its offset in the script, its line and its column. */
  datatype Symbol = Symbol(word: string, kind: SymbolType, fileIndex: nat, lineIndex: nat, posIndex: nat)

  /** Line 120's segment test as written: every non-empty `_`-separated
      piece of `word` is alphanumeric. NameSegmentsAreWordChars shows it
      accepts exactly the words made of word characters. */
  predicate NameSegmentsOk(word: string)
  {
    forall seg <- SplitOn(word, '_') :: |seg| > 0 ==> IsAlnumString(seg)
  }

  predicate AllBlank(word: string) { forall k :: 0 <= k < |word| ==> IsBlank(word[k]) }

  /** `classify_word(word, pos_index)`, with Python's `float(word)` succeeding
      exactly when `isFloat(word)` holds. The segment test of line 120 is
      stated as WordChars(word), its equivalent. */
  function ClassifyWord(word: string, posIndex: nat, isFloat: string -> bool): Result<SymbolType>
  {
    if |word| == 1 && IsPunctuation(word[0]) then Ok(Punctuation)
    else if |word| == 1 && IsMathOp(word[0]) then Ok(MathOperation)
    else if word == [LineBreakChar] then Ok(LineBreak)
    else if word in Keywords then Ok(Keyword)
    // `word[0]` is only evaluated once the segment test has passed
    else if WordChars(word) && |word| == 0 then Err(IndexOutOfRange)
    else if WordChars(word) && !IsDigit(word[0]) then Ok(Name)
    else if AllBlank(word) then Ok(if posIndex == 0 then WhitespaceSpacing else WhitespaceSeparator)
    else if isFloat(word) then Ok(Value)
    else Err(UnrecognizedSymbol(word))
  }

  /** `classify_word` as a function of the token and its column. */
  function Classifier(isFloat: string -> bool): (string, nat) -> Result<SymbolType>
  {
    (word: string, posIndex: nat) => ClassifyWord(word, posIndex, isFloat)
  }

  /** `classify_word` as written: lines 121 and 133 return attributes of the
      `Symbol` record type, which has none of that name. */
  function ClassifyWordAsWritten(word: string, posIndex: nat, isFloat: string -> bool): Result<SymbolType>
  {
    match ClassifyWord(word, posIndex, isFloat)
    case Ok(Name) => Err(MissingAttribute("Name"))
    case Ok(Value) => Err(MissingAttribute("Value"))
    case r => r
  }

  // ---------------------------------------------------------------------
  // The segment test is the word-character test

  lemma AlnumStringExtend(seg: string, x: char)
    ensures (|seg| > 0 ==> IsAlnumString(seg)) && IsAlnum(x) <==> IsAlnumString(seg + [x])
  {
    var t := seg + [x];
    assert t[|seg|] == x;
    if IsAlnumString(t) {
      forall k | 0 <= k < |seg| ensures IsAlnum(seg[k]) {
        assert seg[k] == t[k];
      }
    }
  }

  /** The `_`-split test of line 120 accepts exactly the words made of
      letters, digits and underscores. */
  lemma {:induction false} NameSegmentsAreWordChars(word: string)
    ensures NameSegmentsOk(word) <==> WordChars(word)
    decreases |word|
  {
    if word != [] {
      var t, x := word[..|word| - 1], word[|word| - 1];
      assert word == t + [x];
      NameSegmentsAreWordChars(t);
      var init := SplitOn(t, '_');
      var n := |init|;
      assert WordChars(word) <==> WordChars(t) && IsWordChar(x) by {
        if WordChars(t) && IsWordChar(x) {
          forall k | 0 <= k < |word| ensures IsWordChar(word[k]) {
            if k < |t| { assert word[k] == t[k]; }
          }
        }
      }
      if x == '_' {
        assert SplitOn(word, '_') == init + [[]];
      } else {
        var segs := SplitOn(word, '_');
        assert segs == init[..n - 1] + [init[n - 1] + [x]];
        AlnumStringExtend(init[n - 1], x);
        assert NameSegmentsOk(word) <==> NameSegmentsOk(t) && IsAlnum(x) by {
          if NameSegmentsOk(word) {
            forall seg <- init ensures |seg| > 0 ==> IsAlnumString(seg) {
              if seg != init[n - 1] {
                assert seg in segs;
              } else {
                assert segs[n - 1] == init[n - 1] + [x];
              }
            }
          }
          if NameSegmentsOk(t) && IsAlnum(x) {
            forall seg <- segs ensures |seg| > 0 ==> IsAlnumString(seg) {
              if seg != init[n - 1] + [x] {
                assert seg in init;
              }
            }
          }
        }
      }
    }
  }

  // ---------------------------------------------------------------------
  // The decision order, one outcome at a time

  lemma KeywordsAreWords()
    ensures forall w <- Keywords :: |w| >= 2 && IsLetter(w[0])
  {
  }

  /** A token is Punctuation exactly when it is one punctuation character. */
  lemma ClassifyPunctuation(word: string, posIndex: nat, isFloat: string -> bool)
    ensures ClassifyWord(word, posIndex, isFloat) == Ok(Punctuation)
            <==> |word| == 1 && word[0] in PunctuationChars
  {
    if |word| == 1 {
      SeparatorsAreTheListedCharacters(word[0]);
    }
  }

  /** A token is a MathOperation exactly when it is one of `+ - * / =`. */
  lemma ClassifyMathOperation(word: string, posIndex: nat, isFloat: string -> bool)
    ensures ClassifyWord(word, posIndex, isFloat) == Ok(MathOperation)
            <==> |word| == 1 && word[0] in MathOps
  {
    if |word| == 1 {
      SeparatorsAreTheListedCharacters(word[0]);
    }
  }

  /** Only the line-break token is a LineBreak. */
  lemma ClassifyLineBreak(word: string, posIndex: nat, isFloat: string -> bool)
    ensures ClassifyWord(word, posIndex, isFloat) == Ok(LineBreak) <==> word == "\n"
  {
  }

  /** Exactly the reserved words are Keywords. */
  lemma ClassifyKeyword(word: string, posIndex: nat, isFloat: string -> bool)
    ensures ClassifyWord(word, posIndex, isFloat) == Ok(Keyword) <==> word in Keywords
  {
    KeywordsAreWords();
  }

  /** A word that is not reserved is a Name exactly when it is non-empty,
      made of letters, digits and underscores and does not start with a
      digit (a lone `_` included). */
  lemma ClassifyName(word: string, posIndex: nat, isFloat: string -> bool)
    requires word !in Keywords
    ensures ClassifyWord(word, posIndex, isFloat) == Ok(Name)
            <==> |word| > 0 && WordChars(word) && !IsDigit(word[0])
  {
    if |word| > 0 && WordChars(word) {
      assert IsWordChar(word[0]);
    }
  }

  /** A non-empty all-blank token is indentation at the start of a line and
      a separator elsewhere. */
  lemma ClassifyBlankRun(word: string, posIndex: nat, isFloat: string -> bool)
    requires |word| > 0 && AllBlank(word)
    ensures ClassifyWord(word, posIndex, isFloat)
            == Ok(if posIndex == 0 then WhitespaceSpacing else WhitespaceSeparator)
  {
    KeywordsAreWords();
    assert IsBlank(word[0]) && !IsWordChar(word[0]);
  }

  /** Only non-empty all-blank tokens are whitespace. */
  lemma ClassifyWhitespaceIsBlank(word: string, posIndex: nat, isFloat: string -> bool)
    requires ClassifyWord(word, posIndex, isFloat) in {Ok(WhitespaceSpacing), Ok(WhitespaceSeparator)}
    ensures |word| > 0 && AllBlank(word)
  {
  }

  /** Only the empty word makes the classifier index past the end. */
  lemma ClassifyEmptyWord(word: string, posIndex: nat, isFloat: string -> bool)
    ensures ClassifyWord(word, posIndex, isFloat) == Err(IndexOutOfRange) <==> word == []
  {
  }

  /** Every other failure names the word that no rule accepted, and a Value
      is a word Python's `float` accepts. */
  lemma ClassifyUnrecognized(word: string, posIndex: nat, isFloat: string -> bool)
    requires word != []
    ensures ClassifyWord(word, posIndex, isFloat).Err?
            ==> ClassifyWord(word, posIndex, isFloat) == Err(UnrecognizedSymbol(word)) && !isFloat(word)
    ensures ClassifyWord(word, posIndex, isFloat) == Ok(Value) ==> isFloat(word)
  {
  }

  /** On the lexer's output the classifier never indexes past the end, a
      one-character separator token gets its own kind, and a word token that
      does not start with a digit is a Keyword or a Name. */
  lemma ClassifyLexerToken(t: string, posIndex: nat, isFloat: string -> bool)
    requires |t| > 0 && WellFormedToken(t)
    ensures ClassifyWord(t, posIndex, isFloat) != Err(IndexOutOfRange)
    ensures IsSeparatorToken(t) ==>
      ClassifyWord(t, posIndex, isFloat) in {Ok(Punctuation), Ok(MathOperation), Ok(LineBreak)}
    ensures IsWordToken(t) && !IsDigit(t[0]) ==>
      ClassifyWord(t, posIndex, isFloat) in {Ok(Keyword), Ok(Name)}
  {
    if IsSeparatorToken(t) {
      assert t == [t[0]];
    }
    if IsWordToken(t) && !IsDigit(t[0]) && t !in Keywords {
      ClassifyName(t, posIndex, isFloat);
    }
  }

  // ---------------------------------------------------------------------
  // Positions

  /** The column after `words`: characters since the last line-break token. */
  function Column(words: seq<string>): nat
  {
    if words == [] then 0
    else if words[|words| - 1] == "\n" then 0
    else Column(words[..|words| - 1]) + |words[|words| - 1]|
  }

  /** The symbols of `words`, each with its kind and position, or the first
      classification failure: an unrecognised word is reported with the
      line and column where it starts (line 105), while an index error
      passes through unchanged. */
  function Annotate(words: seq<string>, classify: (string, nat) -> Result<SymbolType>): (r: Result<seq<Symbol>>)
    ensures r.Ok? ==> |r.value| == |words|
  {
    if words == [] then Ok([])
    else
      var init := words[..|words| - 1];
      var w := words[|words| - 1];
      var prev :- Annotate(init, classify);
      var line, pos := Count(init, "\n"), Column(init);
      match classify(w, pos)
      case Ok(kind) => Ok(prev + [Symbol(w, kind, |Concat(init)|, line, pos)])
      case Err(IndexOutOfRange) => Err(IndexOutOfRange)
      case Err(e) => Err(AtPosition(line, pos, e))
  }

  lemma AnnotateFailureStep(words: seq<string>, classify: (string, nat) -> Result<SymbolType>)
    requires words != [] && Annotate(words[..|words| - 1], classify).Err?
    ensures Annotate(words, classify) == Annotate(words[..|words| - 1], classify)
  {
  }

  /** Once a prefix fails, the whole list fails the same way. */
  lemma {:induction false} AnnotateKeepsFailure(words: seq<string>, j: nat, classify: (string, nat) -> Result<SymbolType>)
    requires j <= |words|
    requires Annotate(words[..j], classify).Err?
    ensures Annotate(words, classify) == Annotate(words[..j], classify)
    decreases |words|
  {
    if j < |words| {
      var n := |words| - 1;
      TakeTake(words, n, j);
      AnnotateKeepsFailure(words[..n], j, classify);
      AnnotateFailureStep(words, classify);
    } else {
      assert words[..j] == words;
    }
  }

  /** One more word tagged: the symbol list and the three counters of lines 97-102 advance. */
  lemma AnnotateStep(words: seq<string>, i: nat, classify: (string, nat) -> Result<SymbolType>, symbols: seq<Symbol>)
    requires i < |words|
    requires Annotate(words[..i], classify) == Ok(symbols)
    requires classify(words[i], Column(words[..i])).Ok?
    ensures Annotate(words[..i + 1], classify) == Ok(symbols + [Symbol(words[i],
              classify(words[i], Column(words[..i])).value, |Concat(words[..i])|, Count(words[..i], "\n"), Column(words[..i]))])
    ensures |Concat(words[..i + 1])| == |Concat(words[..i])| + |words[i]|
    ensures Count(words[..i + 1], "\n") == Count(words[..i], "\n") + (if words[i] == "\n" then 1 else 0)
    ensures Column(words[..i + 1]) == if words[i] == "\n" then 0 else Column(words[..i]) + |words[i]|
  {
    var front := words[..i + 1];
    assert front[..i] == words[..i] && front[i] == words[i];
    ConcatAppend(words[..i], [words[i]]);
    assert front == words[..i] + [words[i]];
    assert Concat([words[i]]) == words[i];
  }

  /** `parse_symbols_from_words` with the evident intent: each word is
      classified with its column and the symbol list is returned. */
  method ParseSymbolsFromWords(words: seq<string>, isFloat: string -> bool) returns (r: Result<seq<Symbol>>)
    ensures r == Annotate(words, Classifier(isFloat))
  {
    var symbols: seq<Symbol> := [];
    var fileIndex, lineIndex, posIndex := 0, 0, 0;
    for i := 0 to |words|
      invariant Annotate(words[..i], Classifier(isFloat)) == Ok(symbols)
      invariant fileIndex == |Concat(words[..i])|
      invariant lineIndex == Count(words[..i], "\n")
      invariant posIndex == Column(words[..i])
    {
      var word := words[i];
      assert words[..i + 1][..i] == words[..i] && words[..i + 1][i] == word;
      var kind := ClassifyWord(word, posIndex, isFloat);
      assert kind == Classifier(isFloat)(word, posIndex);
      if kind.Err? {
        AnnotateKeepsFailure(words, i + 1, Classifier(isFloat));
        if kind.error == IndexOutOfRange {
          return Err(IndexOutOfRange);
        }
        return Err(AtPosition(lineIndex, posIndex, kind.error));
      }
      ClassifyLineBreak(word, posIndex, isFloat);
      AnnotateStep(words, i, Classifier(isFloat), symbols);
      symbols := symbols + [Symbol(word, kind.value, fileIndex, lineIndex, posIndex)];
      fileIndex := fileIndex + |word|;
      if kind.value == LineBreak {
        posIndex := 0;
        lineIndex := lineIndex + 1;
      } else {
        posIndex := posIndex + |word|;
      }
    }
    assert words[..|words|] == words;
    return Ok(symbols);
  }

  /** `parse_symbols_from_words` as written: the call at line 92 passes one
      argument to a two-parameter function, which fails for the first word,
      and without a `return` an empty list yields nothing. */
  function ParseSymbolsAsWritten(words: seq<string>): Result<Option<seq<Symbol>>>
  {
    if words == [] then Ok(None) else Err(ArityMismatch)
  }

  /** What the symbol list records: one symbol per word, in order, each with
      the offset of the word in the joined text, the number of line breaks
      before it, its column and its kind. */
  predicate Positioned(words: seq<string>, symbols: seq<Symbol>, classify: (string, nat) -> Result<SymbolType>)
  {
    && |symbols| == |words|
    && forall k :: 0 <= k < |words| ==>
         && symbols[k].word == words[k]
         && symbols[k].fileIndex == |Concat(words[..k])|
         && symbols[k].lineIndex == Count(words[..k], "\n")
         && symbols[k].posIndex == Column(words[..k])
         && classify(words[k], symbols[k].posIndex) == Ok(symbols[k].kind)
  }

  /** The word at `k` is the first one the classifier rejects. */
  predicate FirstRejected(words: seq<string>, k: nat, classify: (string, nat) -> Result<SymbolType>)
  {
    && k < |words|
    && classify(words[k], Column(words[..k])).Err?
    && forall m :: 0 <= m < k ==> classify(words[m], Column(words[..m])).Ok?
  }

  /** The error reported for the rejected word at `k`. */
  function RejectionOf(words: seq<string>, k: nat, classify: (string, nat) -> Result<SymbolType>): Error
    requires FirstRejected(words, k, classify)
  {
    var e := classify(words[k], Column(words[..k])).error;
    if e == IndexOutOfRange then e else AtPosition(Count(words[..k], "\n"), Column(words[..k]), e)
  }

  lemma TakeTake<T>(s: seq<T>, n: nat, k: nat)
    requires k <= n <= |s|
    ensures s[..n][..k] == s[..k] && (k < n ==> s[..n][k] == s[k])
  {
  }

  /** The symbols, when there are any, are positioned as Positioned says. */
  lemma {:induction false} AnnotatePositions(words: seq<string>, classify: (string, nat) -> Result<SymbolType>)
    ensures Annotate(words, classify).Ok? ==> Positioned(words, Annotate(words, classify).value, classify)
    decreases |words|
  {
    if words != [] && Annotate(words, classify).Ok? {
      var n := |words| - 1;
      var init := words[..n];
      AnnotatePositions(init, classify);
      AnnotateLastOk(words, classify);
      var prev := Annotate(init, classify).value;
      AnnotateStep(words, n, classify, prev);
      assert words[..n + 1] == words;
      var symbols := Annotate(words, classify).value;
      assert symbols == prev + [symbols[n]];
      forall k | 0 <= k < n ensures symbols[k] == prev[k] && init[..k] == words[..k] && init[k] == words[k] {
        TakeTake(words, n, k);
      }
    }
  }

  /** Tagging succeeds exactly when every word is classified. */
  lemma {:induction false} AnnotateSucceeds(words: seq<string>, classify: (string, nat) -> Result<SymbolType>)
    ensures Annotate(words, classify).Ok? <==>
            forall k :: 0 <= k < |words| ==> classify(words[k], Column(words[..k])).Ok?
    decreases |words|
  {
    if words != [] {
      var n := |words| - 1;
      var init := words[..n];
      AnnotateSucceeds(init, classify);
      AnnotateLastOk(words, classify);
      ClassifiedSnoc(words, classify);
    }
  }

  lemma AnnotateLastOk(words: seq<string>, classify: (string, nat) -> Result<SymbolType>)
    requires words != []
    ensures Annotate(words, classify).Ok? <==>
      Annotate(words[..|words| - 1], classify).Ok?
      && classify(words[|words| - 1], Column(words[..|words| - 1])).Ok?
  {
  }

  /** Every word is accepted at its column. */
  predicate AllClassified(words: seq<string>, classify: (string, nat) -> Result<SymbolType>)
  {
    forall k :: 0 <= k < |words| ==> classify(words[k], Column(words[..k])).Ok?
  }

  lemma ClassifiedSnoc(words: seq<string>, classify: (string, nat) -> Result<SymbolType>)
    requires words != []
    ensures AllClassified(words, classify) <==>
      AllClassified(words[..|words| - 1], classify)
      && classify(words[|words| - 1], Column(words[..|words| - 1])).Ok?
  {
    var n := |words| - 1;
    forall k | 0 <= k < n ensures words[..n][..k] == words[..k] && words[..n][k] == words[k] {
      TakeTake(words, n, k);
    }
  }

  /** A failure is the rejection of the first word the classifier rejects. */
  lemma {:induction false} AnnotateFailures(words: seq<string>, classify: (string, nat) -> Result<SymbolType>)
    ensures Annotate(words, classify).Err? ==>
      exists k :: FirstRejected(words, k, classify) && Annotate(words, classify).error == RejectionOf(words, k, classify)
    decreases |words|
  {
    if words != [] && Annotate(words, classify).Err? {
      var n := |words| - 1;
      var init := words[..n];
      if Annotate(init, classify).Err? {
        AnnotateFailures(init, classify);
        var k: nat :| FirstRejected(init, k, classify) && Annotate(init, classify).error == RejectionOf(init, k, classify);
        forall m | 0 <= m <= k ensures init[..m] == words[..m] && init[m] == words[m] {
          TakeTake(words, n, m);
        }
        assert FirstRejected(words, k, classify);
      } else {
        AnnotateSucceeds(init, classify);
        forall m | 0 <= m < n ensures init[..m] == words[..m] && init[m] == words[m] {
          TakeTake(words, n, m);
        }
        assert FirstRejected(words, n, classify);
      }
    }
  }

  /** The symbols of the lexer's tokens of a script without spaces or tabs
      point into the script: the word of each symbol is found at its offset. */
  lemma SymbolsPointIntoScript(script: string, classify: (string, nat) -> Result<SymbolType>, k: nat)
    requires NoBlanksFrom(script, 0)
    requires Tokens(script).Ok?
    requires Annotate(Tokens(script).value, classify).Ok?
    requires k < |Tokens(script).value|
    ensures var s := Annotate(Tokens(script).value, classify).value[k];
            s.fileIndex + |s.word| <= |script| && script[s.fileIndex..s.fileIndex + |s.word|] == s.word
  {
    var ts := Tokens(script).value;
    TokensOfBlankFreeScript(script);
    AnnotatePositions(ts, classify);
    ConcatAround(ts, k);
    var a := Concat(ts[..k]);
    assert script[|a|..|a| + |ts[k]|] == ts[k];
  }

  /** As written, tagging any non-empty token list fails and an empty one
      yields no list at all, while the corrected tagging of `["x"]` gives
      its one symbol. */
  lemma ParseSymbolsAsWrittenNeverSucceeds(words: seq<string>, isFloat: string -> bool)
    ensures ParseSymbolsAsWritten(words).Ok? ==> words == [] && ParseSymbolsAsWritten(words).value == None
    ensures words != [] ==> ParseSymbolsAsWritten(words) == Err(ArityMismatch)
    ensures ParseSymbolsAsWritten(["x"]).Err?
    ensures Annotate(["x"], Classifier(isFloat)) == Ok([Symbol("x", Name, 0, 0, 0)])
  {
    ClassifyAsWrittenRejectsNames(isFloat);
    assert ClassifyWord("x", 0, isFloat) == Ok(Name) by {
      ClassifyName("x", 0, isFloat);
    }
    AnnotateOneWord("x", Classifier(isFloat));
  }

  lemma AnnotateOneWord(w: string, classify: (string, nat) -> Result<SymbolType>)
    requires classify(w, 0).Ok?
    ensures Annotate([w], classify) == Ok([Symbol(w, classify(w, 0).value, 0, 0, 0)])
  {
    var init: seq<string> := [];
    assert [w][..0] == init;
    assert Count(init, "\n") == 0 && Column(init) == 0 && |Concat(init)| == 0;
    assert Annotate(init, classify) == Ok([]);
    var sym := Symbol(w, classify(w, 0).value, 0, 0, 0);
    assert [] + [sym] == [sym];
  }

  /** As written, names can never be classified. */
  lemma ClassifyAsWrittenRejectsNames(isFloat: string -> bool)
    ensures ClassifyWord("x", 1, isFloat) == Ok(Name)
    ensures ClassifyWordAsWritten("x", 1, isFloat) == Err(MissingAttribute("Name"))
  {
    KeywordsAreWords();
    assert "x" !in Keywords;
    assert WordChars("x");
  }
}
