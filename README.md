# Fython: a verified model of the faux Python scripting core

This project models the "Fython" pipeline of the `faux_python_scripting`
Home Assistant component. Fython is a small expression language for
configuration values, and `evaluate_script` runs it in three steps:

1. **Lexer.** `decompose_script` cuts the script text into token strings.
2. **Parser.** The top-level parse loop, `_parse_node` and `_parse_args`
   turn the tokens into a flat program. The loop is the body of
   `parse_ast_from_symbols`, taken as the `_parse_program` the runner calls
   (see "## Left out"). A program node is a built-in call with argument
   sub-programs, a punctuation mark, an arithmetic operator or a value.
3. **Evaluator.** `_evaluate_program` runs the program on a stack. It
   evaluates arithmetic left to right with one node of lookahead and no
   precedence. `_run_func` implements the built-ins `min`, `max` and
   `lookup`.

The classifier and position tracker (`classify_word`,
`parse_symbols_from_words`) and `extract_quote` are also modelled, although
`evaluate_script` does not use them.

Files, one Dafny module each:

| file | module | contents |
|---|---|---|
| `fython_base.dfy` | `FythonBase` | `Result`, the failures, ASCII character classes, `"".join`, `str.split`, the substring test `w in s`, string `<` |
| `py_values.dfy` | `PyValues` | Python values, the four operators, `<`, `min`, `max` |
| `fython_lexer.dfy` | `FythonLexer` | `decompose_script` and its properties |
| `fython_classifier.dfy` | `FythonClassifier` | `classify_word`, `parse_symbols_from_words` |
| `fython_parser.dfy` | `FythonParser` | `_parse_node`, `_parse_args`, the parse loop, `extract_quote` |
| `fython_runner.dfy` | `FythonRunner` | `_evaluate_program`, `_run_func`, `evaluate_script` |
| `fython_scenarios.dfy` | `FythonScenarios` | whole scripts run through the pipeline with sample recognizers |

Every loop of the source is a Dafny method with a `while` or `for` loop.
Except for `ExtractQuote`, each such method is proved equal to a recursive
specification function: `Lex`, `Annotate`, `ArgsOf`/`Scan`, `Program`,
`Walk`, `Eval` or `Pipeline`. The lexer's inner blank-grouping loop,
`GroupRun`, is proved to stop at `RunEnd`. The properties are lemmas about those
functions. `ExtractQuote` states its result directly in its `ensures`:
success iff the quote is closed, the first closing symbol, and the joined
text.

Where the code and its evident design disagree, the model follows the code.
There are two kinds of exception: the three defects listed under
"## Findings", and the undefined names listed under "## Left out". Chief among
those is `_parse_program`, which no file defines.

The model follows the code in these cases:

- **Whitespace is duplicated.** The lexer does not empty its word buffer
  after it emits a run of blanks (fython_parser.py:67-71). Each blank run is
  therefore emitted a second time, or glued in front of the next word.
  - Joining the tokens gives the script back if and only if the script has
    no space or tab (`RoundTripIffBlankFree`).
  - The joined tokens contain every space and tab twice
    (`JoinedTokensRepeatBlanks`).
  - `"  \t"` lexes to four tokens, not two.
  - With recognizers that reject blanks, no script containing a space or a
    tab evaluates (`ScriptsWithBlanksFail`).
- **Unknown words loop forever.** A word that no rule of `_parse_node`
  accepts becomes a string literal, but the index does not move
  (fython_parser.py:222-224). The parse loop and the `_parse_args` loop then
  repeat the same step forever. The model reports this as `NonTermination`,
  not as a string literal.
- **Unterminated quotes are index errors.** `extract_quote` running off the
  end raises Python's `IndexError`, modelled as `IndexOutOfRange`. It does
  not raise a dedicated syntax error.
- **Nested evaluations drop the context.** A call used as a right operand,
  and every call argument, is evaluated without the caller's context
  (fython_runner.py:28, 45). So `lookup` works only in the call that opens a
  program.
- **An empty call has one empty argument.** `f()` gets one empty argument
  sub-program (fython_parser.py:244), and evaluating that argument fails with
  a stack imbalance.

## Model

| member | source | states |
|---|---|---|
| `FythonLexer.SeparatorsAreTheListedCharacters` | custom_components/faux_python_scripting/fython_parser.py:13-15 | the operator and punctuation character classes are exactly the characters of `MATH_KW` and `PUNCTUATION` |
| `FythonLexer.BlanksAreTheListedCharacters` | custom_components/faux_python_scripting/fython_parser.py:16 | the blank class is exactly the characters of `WHITE_SPACE` |
| `FythonLexer.RunEnd` | custom_components/faux_python_scripting/fython_parser.py:66-70 | the grouping loop stops at the end of the maximal run of copies of the first blank |
| `FythonLexer.GroupRun` | custom_components/faux_python_scripting/fython_parser.py:67-70 | the grouping loop returns the maximal run of copies of the blank it starts at, and the index of its last copy |
| `FythonLexer.DecomposeScript` | custom_components/faux_python_scripting/fython_parser.py:41-81 | the imperative lexer returns exactly the token list (or the error) of the lexer specification `Tokens` |
| `FythonLexer.TokensWellFormed` | custom_components/faux_python_scripting/fython_parser.py:48-79 | no token is empty; every token is a lone operator, punctuation character or line break, a word, or a run of one blank character followed by word characters (possibly none) |
| `FythonLexer.TokensLegality` | custom_components/faux_python_scripting/fython_parser.py:48-74 | lexing succeeds iff every character is a letter, digit, `_`, operator, punctuation, line break, space or tab; otherwise the error names the first other character |
| `FythonLexer.SeparatorsStandAlone` | custom_components/faux_python_scripting/fython_parser.py:52-57 | the one-character separator tokens are exactly the script's operators, punctuation and line breaks, in order |
| `FythonLexer.TokensOfBlankFreeScript` | custom_components/faux_python_scripting/fython_parser.py:46-79 | for a script without blanks, joining the tokens gives the script back, every token is a word or a lone separator, and no two words are adjacent |
| `FythonLexer.BlankRunsAreTokens` | custom_components/faux_python_scripting/fython_parser.py:60-71 | each maximal run of one blank character is one of the tokens |
| `FythonLexer.BlankScriptHasBlankToken` | custom_components/faux_python_scripting/fython_parser.py:60-71 | a script containing a space or tab always yields a token made only of one repeated blank |
| `FythonLexer.JoinedTokensRepeatBlanks` | custom_components/faux_python_scripting/fython_parser.py:60-79 | for every script that lexes, the joined tokens are as long as the script plus its number of spaces and tabs: each blank comes out twice |
| `FythonLexer.RoundTripIffBlankFree` | custom_components/faux_python_scripting/fython_parser.py:41-81 | for every script that lexes, joining the tokens gives the script back if and only if it has no space or tab |
| `FythonLexer.BlankThenWordIsDuplicated` | custom_components/faux_python_scripting/fython_parser.py:67-71 | `" a"` lexes to `[" ", " a"]`, whose join `"  a"` is not the script |
| `FythonLexer.MixedBlanksAreDuplicated` | custom_components/faux_python_scripting/fython_parser.py:66-71 | `"  \t"` lexes to the two runs, each emitted twice |
| `FythonClassifier.NameSegmentsAreWordChars` | custom_components/faux_python_scripting/fython_parser.py:120 | the `_`-split segment test accepts exactly the words made of letters, digits and underscores |
| `FythonClassifier.KeywordsAreWords` | custom_components/faux_python_scripting/fython_parser.py:11 | every reserved word has at least two characters and starts with a letter |
| `FythonClassifier.ClassifyPunctuation` | custom_components/faux_python_scripting/fython_parser.py:109-111 | Punctuation iff the token is one character of `PUNCTUATION` |
| `FythonClassifier.ClassifyMathOperation` | custom_components/faux_python_scripting/fython_parser.py:112-113 | MathOperation iff the token is one character of `MATH_KW` (so `=` included) |
| `FythonClassifier.ClassifyLineBreak` | custom_components/faux_python_scripting/fython_parser.py:114-115 | LineBreak iff the token is the line break |
| `FythonClassifier.ClassifyKeyword` | custom_components/faux_python_scripting/fython_parser.py:117-118 | Keyword iff the token is a reserved word |
| `FythonClassifier.ClassifyName` | custom_components/faux_python_scripting/fython_parser.py:120-121 | a non-reserved token is a Name iff it is non-empty, made of word characters and does not start with a digit |
| `FythonClassifier.ClassifyBlankRun` | custom_components/faux_python_scripting/fython_parser.py:124-129 | an all-blank token is WhitespaceSpacing in column 0 and WhitespaceSeparator elsewhere |
| `FythonClassifier.ClassifyWhitespaceIsBlank` | custom_components/faux_python_scripting/fython_parser.py:124-129 | only non-empty all-blank tokens are classified as whitespace |
| `FythonClassifier.ClassifyEmptyWord` | custom_components/faux_python_scripting/fython_parser.py:120 | the classifier indexes past the end (the `word[0]` of line 120) iff the token is empty |
| `FythonClassifier.ClassifyUnrecognized` | custom_components/faux_python_scripting/fython_parser.py:131-136 | on a non-empty token, a Value is a token `float` accepts, and every failure is UnrecognizedSymbol of that token, which `float` rejects |
| `FythonClassifier.ClassifyLexerToken` | custom_components/faux_python_scripting/fython_parser.py:108-136 | on the lexer's tokens the classifier never indexes past the end; separators get their own kinds; word tokens not starting with a digit are Keywords or Names |
| `FythonClassifier.Annotate` | custom_components/faux_python_scripting/fython_parser.py:84-105 | a successful tagging has one symbol per word |
| `FythonClassifier.AnnotateKeepsFailure` | custom_components/faux_python_scripting/fython_parser.py:90-105 | once a prefix of the words fails, the whole list fails with the same error |
| `FythonClassifier.ParseSymbolsFromWords` | custom_components/faux_python_scripting/fython_parser.py:84-105 | the counter loop returns exactly the tagging specification `Annotate` with the classifier |
| `FythonClassifier.AnnotatePositions` | custom_components/faux_python_scripting/fython_parser.py:91-102 | symbol k has word k, file index = length of the earlier words, line index = number of earlier line breaks, column = length since the last line break, and the kind the classifier gives at that column |
| `FythonClassifier.AnnotateSucceeds` | custom_components/faux_python_scripting/fython_parser.py:90-103 | tagging succeeds iff every word is classified at its column |
| `FythonClassifier.AnnotateFailures` | custom_components/faux_python_scripting/fython_parser.py:104-105 | a failure is the first rejected word's error, wrapped with its line and column |
| `FythonClassifier.SymbolsPointIntoScript` | custom_components/faux_python_scripting/fython_parser.py:93-97 | for a blank-free script, each symbol's word occurs in the script at its file index |
| `FythonClassifier.ParseSymbolsAsWrittenNeverSucceeds` | custom_components/faux_python_scripting/fython_parser.py:92 | as written, the only successful result is None, for the empty list; every non-empty list is a TypeError, so no symbol list ever comes back; `["x"]` fails as written but the corrected tagging gives its one Name symbol |
| `FythonClassifier.ClassifyAsWrittenRejectsNames` | custom_components/faux_python_scripting/fython_parser.py:121 | as written, the name `x` is an AttributeError where the intended classifier says Name |
| `FythonParser.StripUnderscoresDeletes` | custom_components/faux_python_scripting/fython_parser.py:214 | `"".join(word.split("_"))` deletes exactly the underscores and keeps the other characters in order |
| `FythonParser.ParseNode` | custom_components/faux_python_scripting/fython_parser.py:199-225 | a parsed node lies within the words; a punctuation node is the word itself and moves one word on |
| `FythonParser.ArgsOf` | custom_components/faux_python_scripting/fython_parser.py:228-245 | a parsed argument list starts at a `(`, takes at least two words and ends just after a `)` |
| `FythonParser.Scan` | custom_components/faux_python_scripting/fython_parser.py:235-243 | a successful scan moves forward and ends just after a `)` |
| `FythonParser.ParseArgs` | custom_components/faux_python_scripting/fython_parser.py:228-245 | the imperative `_parse_args` returns exactly `ArgsOf` |
| `FythonParser.ScanArgs` | custom_components/faux_python_scripting/fython_parser.py:233-245 | the comma-splitting loop returns the scanned nodes split at the commas, the same as `Scan` |
| `FythonParser.ParseProgram` | custom_components/faux_python_scripting/fython_parser.py:139-147 | the imperative parse loop returns exactly `Program`; an empty word list is an index error |
| `FythonParser.ParseNodeMoves` | custom_components/faux_python_scripting/fython_parser.py:199-225 | past the end it is an index error; punctuation and operators are the word itself one word on; a value moves one word on or stays; a call is named by its word and moves past its whole argument list from `(` to `)` |
| `FythonParser.ParseNodeStays` | custom_components/faux_python_scripting/fython_parser.py:222-224 | the index stays in place iff no rule recognizes the word, and that word becomes a string literal |
| `FythonParser.ParseSeparatorToken` | custom_components/faux_python_scripting/fython_parser.py:204-209 | a lexer operator or punctuation token that is not a function name becomes an operator or punctuation node one word on |
| `FythonParser.FloatWordDropsUnderscores` | custom_components/faux_python_scripting/fython_parser.py:213-215 | the float branch converts the word with every `_` deleted and fails if the converter does |
| `FythonParser.ParseNodeCovers` | custom_components/faux_python_scripting/fython_parser.py:199-225 | every word a successful `_parse_node` steps over is recognized by some rule |
| `FythonParser.ArgsCovers` | custom_components/faux_python_scripting/fython_parser.py:228-245 | every word a successful argument list steps over is recognized |
| `FythonParser.ScanCovers` | custom_components/faux_python_scripting/fython_parser.py:235-243 | every word a successful scan steps over is recognized |
| `FythonParser.ProgramFromCovers` | custom_components/faux_python_scripting/fython_parser.py:144-146 | a successful parse loop has recognized every remaining word |
| `FythonParser.ProgramNeedsRecognizedWords` | custom_components/faux_python_scripting/fython_parser.py:139-147 | a program parses only if the word list is non-empty and every word is recognized |
| `FythonParser.UnknownFirstWordRepeats` | custom_components/faux_python_scripting/fython_parser.py:142-145 | an unrecognized first word makes the parse loop repeat forever |
| `FythonParser.ScanStopsAtClose` | custom_components/faux_python_scripting/fython_parser.py:235-243 | the nodes a scan collects contain no `)` |
| `FythonParser.ArgumentsStructure` | custom_components/faux_python_scripting/fython_parser.py:237-244 | c top-level commas give c + 1 arguments, no argument holds a comma, and joining the arguments with commas gives the nodes back |
| `FythonParser.ArgsStructure` | custom_components/faux_python_scripting/fython_parser.py:228-245 | a parsed argument list is the comma split of nodes without `)`, so no argument holds a `,` or a `)` node |
| `FythonParser.EmptyCallHasOneEmptyArgument` | custom_components/faux_python_scripting/fython_parser.py:229-244 | `()` yields exactly one empty argument and moves two words on |
| `FythonParser.ExtractQuote` | custom_components/faux_python_scripting/fython_parser.py:157-164 | succeeds iff a later symbol repeats the opening text; then returns the texts strictly before the first such symbol, joined, and the index one past it; otherwise an index error |
| `FythonParser.ExtractQuoteAsWrittenFails` | custom_components/faux_python_scripting/fython_parser.py:160-161 | as written, a closed quote is an AttributeError (`Symbol` has no `value`) |
| `PyValues.ApplyDomain` | custom_components/faux_python_scripting/fython_runner.py:32-41 | only `+ - / *` are implemented; they succeed exactly on two numbers (not dividing by zero) or, for `+`, two strings |
| `PyValues.MinFromSpec` | custom_components/faux_python_scripting/fython_runner.py:59-60 | the running minimum succeeds iff all values are numbers or all are strings, and returns one of them that no value is less than |
| `PyValues.MaxFromSpec` | custom_components/faux_python_scripting/fython_runner.py:61-62 | the running maximum succeeds iff all values are numbers or all are strings, and returns one of them that is less than no value |
| `PyValues.MinOfSpec` | custom_components/faux_python_scripting/fython_runner.py:59-60 | `min` of no values is an empty-sequence error; of one value returns it; of several succeeds iff all are numbers or all are strings, returning a member that no value is less than |
| `PyValues.MaxOfSpec` | custom_components/faux_python_scripting/fython_runner.py:61-62 | `max` of no values is an empty-sequence error; of one value returns it; of several succeeds iff all are numbers or all are strings, returning a member that is less than no value |
| `FythonRunner.Lookup` | custom_components/faux_python_scripting/fython_runner.py:66-72 | the path-walking loop returns exactly `Walk` |
| `FythonRunner.WalkSplit` | custom_components/faux_python_scripting/fython_runner.py:67-72 | walking `p + q` walks `q` from the value stored under `p`, or ends as walking `p` does |
| `FythonRunner.WalkFindsStoredValues` | custom_components/faux_python_scripting/fython_runner.py:67-72 | a path present in nested dictionaries yields the value stored there; the first missing segment yields None, not an error |
| `FythonRunner.RunFunc` | custom_components/faux_python_scripting/fython_runner.py:57-75 | the imperative `_run_func` returns exactly `Builtin` |
| `FythonRunner.BuiltinSpec` | custom_components/faux_python_scripting/fython_runner.py:57-75 | only `min`, `max` and `lookup` succeed; `lookup` with several arguments fails; `lookup` of a present dotted path returns the stored value |
| `FythonRunner.LookupWithoutContextFails` | custom_components/faux_python_scripting/fython_runner.py:63-72 | `lookup` with no context (None) always fails |
| `FythonRunner.OperandIsOwnProgram` | custom_components/faux_python_scripting/fython_runner.py:25-28 | a right operand is evaluated as the one-node program holding it, without the context |
| `FythonRunner.EvaluateArgs` | custom_components/faux_python_scripting/fython_runner.py:45 | the argument loop returns exactly `EvalArgs` |
| `FythonRunner.EvaluateOperand` | custom_components/faux_python_scripting/fython_runner.py:24-30 | the right-operand evaluation returns exactly `Operand`: a value's value, a call run as its own one-node program without the context, an error for any other node |
| `FythonRunner.EvaluateProgram` | custom_components/faux_python_scripting/fython_runner.py:15-54 | the imperative stack machine returns exactly `Eval` |
| `FythonRunner.RunChain` | custom_components/faux_python_scripting/fython_runner.py:23-42 | running operator/operand pairs replaces the top of the stack by their left fold |
| `FythonRunner.RunShape` | custom_components/faux_python_scripting/fython_runner.py:18-49 | a run never leaves the stack shallower than it started, and one that leaves it as deep has read only operator/operand pairs |
| `FythonRunner.RunExecutable` | custom_components/faux_python_scripting/fython_runner.py:32-49 | a successful run meets no punctuation and no operator outside `+ - / *` |
| `FythonRunner.RunStartsWithOperand` | custom_components/faux_python_scripting/fython_runner.py:20-31 | a successful program starts with a value or a call whose own evaluation succeeds, since an operator on an empty stack fails |
| `FythonRunner.EvalIsLeftFold` | custom_components/faux_python_scripting/fython_runner.py:15-54 | a program succeeds only if it is a chain `x0 op1 x1 ... opn xn` of executable nodes, and on a chain the result is the left fold `((x0 op1 x1) op2 x2) ...` |
| `FythonRunner.ContextReachesOnlyLeadingCall` | custom_components/faux_python_scripting/fython_runner.py:28-46 | a chain that does not start with a call gives the same result under every context |
| `FythonRunner.LookupOperandFails` | custom_components/faux_python_scripting/fython_runner.py:27-28 | a `lookup` call used as a right operand always fails |
| `FythonRunner.EvalArgsEach` | custom_components/faux_python_scripting/fython_runner.py:45 | the argument values are exactly each argument program's own result without the context, and the call fails iff one argument fails |
| `FythonRunner.SubtractionAssociatesLeft` | custom_components/faux_python_scripting/fython_runner.py:31-42 | `[2, -, 1, -, 1]` evaluates to 0 |
| `FythonRunner.NoPrecedence` | custom_components/faux_python_scripting/fython_runner.py:23-42 | `[2, +, 3, *, 4]` evaluates to 20 |
| `FythonRunner.TwoValuesAreUnbalanced` | custom_components/faux_python_scripting/fython_runner.py:50-53 | two values with no operator leave two values on the stack, which is an error |
| `FythonRunner.EmptyCallFails` | custom_components/faux_python_scripting/fython_runner.py:45-53 | `min()` fails: its one empty argument leaves no value |
| `FythonRunner.AssignmentIsUnimplemented` | custom_components/faux_python_scripting/fython_runner.py:40-41 | `=` is an unimplemented operator for the evaluator |
| `FythonRunner.EvaluateScript` | custom_components/faux_python_scripting/fython_runner.py:8-12 | `evaluate_script` returns exactly `Pipeline`, which is lex, then parse, then evaluate |
| `FythonRunner.PipelineNeedsRecognizedWords` | custom_components/faux_python_scripting/fython_runner.py:8-12 | a script evaluates only if it lexes, every token is recognized, and the parsed program is a chain |
| `FythonRunner.BlankRunUnrecognized` | custom_components/faux_python_scripting/fython_parser.py:199-225 | with literal recognizers that reject blank runs, no rule of `_parse_node` recognizes a blank run |
| `FythonRunner.ScriptsWithBlanksFail` | custom_components/faux_python_scripting/fython_runner.py:8-12 | with such recognizers, every script containing a space or a tab fails |
| `FythonScenarios.OnePlusTwoTokens` | custom_components/faux_python_scripting/fython_parser.py:41-81 | `1+2` lexes to `1`, `+`, `2` |
| `FythonScenarios.ParseDigit` | custom_components/faux_python_scripting/fython_parser.py:213-215 | a digit word is a float literal one word on |
| `FythonScenarios.OnePlusTwoProgram` | custom_components/faux_python_scripting/fython_parser.py:139-147 | the tokens of `1+2` parse to value, operator, value |
| `FythonScenarios.OnePlusTwo` | custom_components/faux_python_scripting/fython_runner.py:8-12 | `1+2` evaluates to 3 |
| `FythonScenarios.MaxCallTokens` | custom_components/faux_python_scripting/fython_parser.py:46-79 | `max(1,2)` lexes to six one-word tokens |
| `FythonScenarios.MaxCallArguments` | custom_components/faux_python_scripting/fython_parser.py:228-245 | the argument list `(1,2)` yields two one-value arguments |
| `FythonScenarios.MaxCallProgram` | custom_components/faux_python_scripting/fython_parser.py:199-203 | `max(1,2)` parses to one call node |
| `FythonScenarios.MaxCall` | custom_components/faux_python_scripting/fython_runner.py:8-12 | `max(1,2)` evaluates to 2 |
| `FythonScenarios.SpacedSumFails` | custom_components/faux_python_scripting/fython_runner.py:8-12 | `1 + 2` fails, because the lexer's duplicated blanks are not recognized by the parser |

## Left out

- Unicode: `str.isalpha`, `str.isdigit` and `str.isalnum` are modelled on ASCII letters and digits only.
- Floating point: numbers are exact reals, so rounding and overflow are not modelled. Division by zero is an error.
- The literal recognizers: `FUNCTION_KW`, `CLOCK_REGEX`, `FLOAT_REGEX`, `DURATION_REGEX`, `_parse_24h_clock`, `_parse_duration`, `time.normalize_time` and Python's `float()`.
  - The files do not define them, so they are the fields of a `Literals` value passed to the parser.
  - A converter that would raise answers None, reported as `ConversionFailed`.
  - The timezone is only passed through to these recognizers, so it does not appear.
  - The classifier takes `float()`'s parseability as a predicate parameter.
- Python values: `PyValues.Value` has only numbers, strings, None and dictionaries.
  - Ints and floats are both exact reals, so `3` and `3.0` are the same value.
  - Context values that are bools, lists or other objects cannot be represented. For example, `True + 1.0` or `[1] < [2]` cannot be stated.
  - Operators and `<` beyond number/number and string/string pairs are modelled as type errors. This includes string repetition `"ab" * 2`.
  - In the modelled pipeline a right operand never comes from the context, so `str * int` cannot arise there. A number or a string placed in the context as a bool or list still has no counterpart.
- Time-of-day and duration values: they exist only through the recognizers. Arithmetic and `<` are modelled on numbers and strings.
- Non-termination: the parse loop and the `_parse_args` loop repeat forever on a word that does not move the index. This is reported as `NonTermination` at the first repeated step.
- Exception types:
  - `InvalidSyntaxException` and `RuntimeException` are not defined, so the Python run fails with a NameError where the code raises them. The model keeps the intended error, and either way the whole evaluation fails.
  - The re-raise at fython_parser.py:105 reads `e.msg`, which `ValueError` does not have. The model keeps the intended position-tagged error.
  - Exception messages are not modelled.
- `_parse_program`: no file defines it, and fython_runner.py:1 imports only `decompose_script`. So `evaluate_script` as written raises NameError at fython_runner.py:11 for every script that lexes, and no script evaluates.
  - The model supplies the evident intent. `_parse_program(word_list, timezone)` is taken to be the parse loop in the body of `parse_ast_from_symbols` (fython_parser.py:139-147), with `program` starting empty.
  - That loop itself reads the undefined `word_list`, `program` and `timezone` instead of its `symbol_list` parameter.
  - `FythonRunner.Pipeline`, `FythonRunner.EvaluateScript` and the scenario lemmas therefore describe the intended pipeline, not the NameError.
- `parse_symbol_to_syntax_node` (fython_parser.py:167-196) is not part of this model. It does not parse as Python, and its quote branch is `extract_quote`.
- The empty placeholder classes and the unused imports.
- Representation: a call's arguments are a sequence of `Arg` records, each holding one sub-program, rather than a bare sequence of node sequences. This gives the evaluator's mutual recursion a structural termination measure.
- `ExtractQuote` compares and joins the symbols' `word` texts, the field the `Symbol` record has. As written the function reads `value` (see Findings).
- `lookup` never modifies the context: values are immutable in the model, so nothing can change it.

## Findings

| source | as written | input that shows it | evidently intended | confidence | as-written member | corrected member |
|---|---|---|---|---|---|---|
| custom_components/faux_python_scripting/fython_parser.py:84-105 | `classify_word(word)` is called with one argument though it takes two, and the function has no `return` | `["x"]`: TypeError at the first word; `[]` returns None | classify each word at its column and return the symbol list | high, not executed | `FythonClassifier.ParseSymbolsAsWrittenNeverSucceeds` | `FythonClassifier.ParseSymbolsFromWords` |
| custom_components/faux_python_scripting/fython_parser.py:121 | returns `Symbol.Name` (and line 133 `Symbol.Value`), attributes the `Symbol` record type does not have | `classify_word("x", 1)`: AttributeError | return `SymbolType.Name` / `SymbolType.Value` | high, not executed | `FythonClassifier.ClassifyAsWrittenRejectsNames` | `FythonClassifier.ClassifyName` |
| custom_components/faux_python_scripting/fython_parser.py:160-161 | reads `symbol.value`; the `Symbol` record's text field is `word` | the symbols `hi`, `"` with opening quote `"`: AttributeError | compare and collect the symbols' `word` | high, not executed | `FythonParser.ExtractQuoteAsWrittenFails` | `FythonParser.ExtractQuote` |
