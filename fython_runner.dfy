/** The stack-machine evaluator of fython_runner.py: `_evaluate_program`,
    the built-ins of `_run_func` (`min`, `max`, `lookup`) and the
    `evaluate_script` pipeline.

    Arithmetic has no precedence: an operator pops the left operand and
    takes the node right after it as the right operand, so a program that
    succeeds is a left fold `x0 op1 x1 op2 x2 ...`. Nested evaluations (a
    call used as a right operand, and every call argument) run without the
    caller's context. */
module FythonRunner {
  import opened FythonBase
  import opened PyValues
  import opened FythonLexer
  import opened FythonClassifier
  import opened FythonParser

  // ---------------------------------------------------------------- lookup

  /** The loop of `lookup` (fython_runner.py:67-72) from `step`: a
      dictionary is entered at each segment; the first missing segment
      ends the walk with None. On a string `seg in step` is a substring
      test and indexing a string by a string is a TypeError; any other
      value cannot be searched at all. */
  function Walk(step: Value, path: seq<string>): Result<Value>
    decreases |path|
  {
    if path == [] then Ok(step)
    else match step
      case Dict(m) => if path[0] in m then Walk(m[path[0]], path[1..]) else Ok(Null)
      case Str(s) => if IsSubstring(path[0], s) then Err(TypeMismatch) else Ok(Null)
      case _ => Err(TypeMismatch)
  }

  /** The value stored under `path` in nested dictionaries, if every
      segment is present. */
  function Descend(step: Value, path: seq<string>): Option<Value>
    decreases |path|
  {
    if path == [] then Some(step)
    else if step.Dict? && path[0] in step.entries then Descend(step.entries[path[0]], path[1..])
    else None
  }

  method Lookup(ctx: Value, path: seq<string>) returns (r: Result<Value>)
    ensures r == Walk(ctx, path)
  {
    var step := ctx;
    for k := 0 to |path|
      invariant Walk(ctx, path) == Walk(step, path[k..])
    {
      assert path[k..][1..] == path[k + 1..];
      var seg := path[k];
      if step.Dict? {
        if seg !in step.entries {
          return Ok(Null);
        }
        step := step.entries[seg];
      } else if step.Str? {
        if !IsSubstring(seg, step.s) {
          return Ok(Null);
        }
        return Err(TypeMismatch);
      } else {
        return Err(TypeMismatch);
      }
    }
    return Ok(step);
  }

  /** Walking a path in two parts: after the first part the walk goes on
      from the value found there, or has already ended as walking the
      first part alone ends. */
  lemma {:induction false} WalkSplit(ctx: Value, p: seq<string>, q: seq<string>)
    ensures Walk(ctx, p + q) ==
      if Descend(ctx, p).Some? then Walk(Descend(ctx, p).value, q) else Walk(ctx, p)
    decreases |p|
  {
    if p == [] {
      assert p + q == q;
    } else {
      assert (p + q)[0] == p[0] && (p + q)[1..] == p[1..] + q;
      if ctx.Dict? && p[0] in ctx.entries {
        WalkSplit(ctx.entries[p[0]], p[1..], q);
      }
    }
  }

  /** A path present in nested dictionaries yields the value stored there,
      and the first missing segment yields None rather than an error. */
  lemma WalkFindsStoredValues(ctx: Value, path: seq<string>, k: nat)
    ensures Descend(ctx, path).Some? ==> Walk(ctx, path) == Ok(Descend(ctx, path).value)
    ensures k < |path| && Descend(ctx, path[..k]).Some? && Descend(ctx, path[..k]).value.Dict?
            && path[k] !in Descend(ctx, path[..k]).value.entries
            ==> Walk(ctx, path) == Ok(Null)
  {
    WalkSplit(ctx, path, []);
    assert path + [] == path;
    if k < |path| {
      WalkSplit(ctx, path[..k], path[k..]);
      assert path[..k] + path[k..] == path;
    }
  }

  // ------------------------------------------------------------- built-ins

  /** `_run_func(name, args, ctx)`: `min`, `max`, or `lookup` of a dotted
      path in the context; any other name raises. */
  function Builtin(name: string, args: seq<Value>, ctx: Value): Result<Value>
  {
    if name == "min" then MinOf(args)
    else if name == "max" then MaxOf(args)
    else if name == "lookup" then
      if |args| > 1 then Err(TooManyArguments)
      else if args == [] then Err(IndexOutOfRange)
      else if !args[0].Str? then Err(MissingAttribute("split"))
      else Walk(ctx, SplitOn(args[0].s, '.'))
    else Err(UnimplementedFunction(name))
  }

  method RunFunc(name: string, args: seq<Value>, ctx: Value) returns (r: Result<Value>)
    ensures r == Builtin(name, args, ctx)
  {
    if name == "min" {
      r := MinOf(args);
    } else if name == "max" {
      r := MaxOf(args);
    } else if name == "lookup" {
      if |args| > 1 {
        return Err(TooManyArguments);
      }
      if args == [] {
        return Err(IndexOutOfRange);
      }
      if !args[0].Str? {
        return Err(MissingAttribute("split"));
      }
      r := Lookup(ctx, SplitOn(args[0].s, '.'));
    } else {
      r := Err(UnimplementedFunction(name));
    }
  }

  /** Only the three built-ins exist; `lookup` takes one dotted path and
      returns what is stored there, None at the first missing segment. */
  lemma BuiltinSpec(name: string, args: seq<Value>, ctx: Value, path: string)
    ensures Builtin(name, args, ctx).Ok? ==> name == "min" || name == "max" || name == "lookup"
    ensures name == "lookup" && |args| > 1 ==> Builtin(name, args, ctx) == Err(TooManyArguments)
    ensures Descend(ctx, SplitOn(path, '.')).Some? ==>
      Builtin("lookup", [Str(path)], ctx) == Ok(Descend(ctx, SplitOn(path, '.')).value)
  {
    WalkFindsStoredValues(ctx, SplitOn(path, '.'), 0);
  }

  /** Without a context (nested evaluations pass None) `lookup` always fails. */
  lemma LookupWithoutContextFails(args: seq<Value>)
    ensures Builtin("lookup", args, Null).Err?
  {
  }

  // ------------------------------------------------------------- evaluator

  /** The right operand of an operator: a value, or a call evaluated as a
      program of its own without the context (line 28). */
  function Operand(n: Node): Result<Value>
    decreases n
  {
    match n
    case Var(v) => Ok(v)
    case Func(name, args) =>
      var vals :- EvalArgs(args);
      Builtin(name, vals, Null)
    case _ => Err(InvalidOperand)
  }

  /** Each argument sub-program evaluated on its own, left to right,
      without the context (line 45). */
  function EvalArgs(args: seq<Arg>): Result<seq<Value>>
    decreases args
  {
    if args == [] then Ok([])
    else
      var v :- Eval(args[0].nodes, Null);
      var rest :- EvalArgs(args[1..]);
      Ok([v] + rest)
  }

  /** The loop of `_evaluate_program` from program index `idx` with the
      execution stack `stack`; the final stack. */
  function Run(prog: seq<Node>, ctx: Value, idx: nat, stack: seq<Value>): Result<seq<Value>>
    decreases prog, 0, |prog| - idx
  {
    if idx >= |prog| then Ok(stack)
    else match prog[idx]
      case Var(v) => Run(prog, ctx, idx + 1, stack + [v])
      case Arith(op) =>
        if idx + 1 >= |prog| then Err(IndexOutOfRange)
        else
          var rhs :- Operand(prog[idx + 1]);
          if stack == [] then Err(IndexOutOfRange)
          else
            var v :- Apply(op, stack[|stack| - 1], rhs);
            Run(prog, ctx, idx + 2, stack[..|stack| - 1] + [v])
      case Func(name, args) =>
        var vals :- EvalArgs(args);
        var v :- Builtin(name, vals, ctx);
        Run(prog, ctx, idx + 1, stack + [v])
      case Punc(_) => Err(UnexpectedInstruction)
  }

  /** `_evaluate_program(prog, ctx)`: the one value left on the stack. */
  function Eval(prog: seq<Node>, ctx: Value): Result<Value>
    decreases prog, 1
  {
    var st :- Run(prog, ctx, 0, []);
    if |st| == 1 then Ok(st[0]) else Err(StackImbalance(|st|))
  }

  function NodeSize(n: Node): nat
  {
    match n
    case Func(_, args) => 1 + ArgsSize(args)
    case _ => 1
  }

  function ProgSize(p: seq<Node>): nat
  {
    if p == [] then 0 else NodeSize(p[0]) + ProgSize(p[1..])
  }

  function ArgsSize(a: seq<Arg>): nat
  {
    if a == [] then 0 else ProgSize(a[0].nodes) + ArgsSize(a[1..])
  }

  lemma {:induction false} ProgSizeSplit(p: seq<Node>, i: nat)
    requires i < |p|
    ensures ProgSize(p) == ProgSize(p[..i]) + NodeSize(p[i]) + ProgSize(p[i + 1..])
  {
    if i > 0 {
      ProgSizeSplit(p[1..], i - 1);
      assert p[1..][..i - 1] == p[..i][1..];
      assert p[1..][i - 1] == p[i] && p[1..][i..] == p[i + 1..];
    }
  }

  lemma {:induction false} ArgsSizeAt(a: seq<Arg>, k: nat)
    requires k < |a|
    ensures ProgSize(a[k].nodes) <= ArgsSize(a)
  {
    if k > 0 {
      ArgsSizeAt(a[1..], k - 1);
    }
  }

  function Prepend(vals: seq<Value>, r: Result<seq<Value>>): Result<seq<Value>>
  {
    if r.Ok? then Ok(vals + r.value) else r
  }

  /** A call used as an operand is evaluated like the one-node program
      holding it, without the context. */
  lemma OperandIsOwnProgram(n: Node)
    requires n.Func? || n.Var?
    ensures Eval([n], Null) == Operand(n)
  {
    var o := Operand(n);
    if o.Ok? {
      assert Run([n], Null, 0, []) == Run([n], Null, 1, [] + [o.value]);
    }
  }

  /** The argument list of a call, `[_evaluate_program(arg) for arg in args]`. */
  method EvaluateArgs(args: seq<Arg>) returns (r: Result<seq<Value>>)
    ensures r == EvalArgs(args)
    decreases ArgsSize(args) + 1, 0
  {
    var vals: seq<Value> := [];
    assert args[0..] == args;
    assert Prepend([], EvalArgs(args)) == EvalArgs(args) by {
      if EvalArgs(args).Ok? {
        assert [] + EvalArgs(args).value == EvalArgs(args).value;
      }
    }
    for k := 0 to |args|
      invariant EvalArgs(args) == Prepend(vals, EvalArgs(args[k..]))
    {
      ArgsSizeAt(args, k);
      var a := EvaluateProgram(args[k].nodes, Null);
      assert args[k..][0] == args[k] && args[k..][1..] == args[k + 1..];
      if a.Err? {
        return Err(a.error);
      }
      ghost var tail := EvalArgs(args[k + 1..]);
      assert tail.Ok? ==> vals + ([a.value] + tail.value) == (vals + [a.value]) + tail.value;
      vals := vals + [a.value];
    }
    assert args[|args|..] == [] && vals + [] == vals;
    return Ok(vals);
  }

  /** The right operand of an operator (lines 25-30). */
  method EvaluateOperand(next: Node) returns (r: Result<Value>)
    ensures r == Operand(next)
    decreases NodeSize(next), 2
  {
    if next.Var? {
      r := Ok(next.value);
    } else if next.Func? {
      assert ProgSize([next]) == NodeSize(next);
      r := EvaluateProgram([next], Null);
      OperandIsOwnProgram(next);
    } else {
      r := Err(InvalidOperand);
    }
  }

  method EvaluateProgram(prog: seq<Node>, ctx: Value) returns (r: Result<Value>)
    ensures r == Eval(prog, ctx)
    decreases ProgSize(prog), 1
  {
    var idx := 0;
    var stack: seq<Value> := [];
    while idx < |prog|
      invariant idx <= |prog|
      invariant Run(prog, ctx, idx, stack) == Run(prog, ctx, 0, [])
      decreases |prog| - idx
    {
      var instr := prog[idx];
      match instr {
        case Var(v) =>
          stack := stack + [v];
          idx := idx + 1;
        case Arith(op) =>
          if idx + 1 >= |prog| {
            return Err(IndexOutOfRange);
          }
          ProgSizeSplit(prog, idx + 1);
          ProgSizeSplit(prog[..idx + 1], 0);
          var rhs := EvaluateOperand(prog[idx + 1]);
          if rhs.Err? {
            return Err(rhs.error);
          }
          if stack == [] {
            return Err(IndexOutOfRange);
          }
          var v := Apply(op, stack[|stack| - 1], rhs.value);
          if v.Err? {
            return Err(v.error);
          }
          stack := stack[..|stack| - 1] + [v.value];
          idx := idx + 2;
        case Func(name, args) =>
          ProgSizeSplit(prog, idx);
          var vals := EvaluateArgs(args);
          if vals.Err? {
            return Err(vals.error);
          }
          var v := RunFunc(name, vals.value, ctx);
          if v.Err? {
            return Err(v.error);
          }
          stack := stack + [v.value];
          idx := idx + 1;
        case Punc(_) =>
          return Err(UnexpectedInstruction);
      }
    }
    if |stack| != 1 {
      return Err(StackImbalance(|stack|));
    }
    return Ok(stack[0]);
  }

  // ------------------------------------------------- what a program computes

  predicate IsOperandNode(n: Node) { n.Var? || n.Func? }

  /** From `idx` on, the program is a sequence of (operator, operand) pairs. */
  predicate ChainFrom(prog: seq<Node>, idx: nat)
    decreases |prog| - idx
  {
    idx >= |prog|
    || (idx + 1 < |prog| && prog[idx].Arith? && IsOperandNode(prog[idx + 1]) && ChainFrom(prog, idx + 2))
  }

  /** `x0 op1 x1 op2 x2 ... opn xn`: an operand followed by operator/operand pairs. */
  predicate IsChain(prog: seq<Node>)
  {
    |prog| > 0 && IsOperandNode(prog[0]) && ChainFrom(prog, 1)
  }

  /** A node the evaluator can execute: not punctuation, and an operator
      only if it is one of `+ - / *`. */
  predicate Executable(n: Node)
  {
    !n.Punc? && (n.Arith? ==> IsOperator(n.op))
  }

  /** The value of the leading operand; only here does the context reach a call. */
  function Leading(n: Node, ctx: Value): Result<Value>
    requires IsOperandNode(n)
  {
    if n.Var? then Ok(n.value)
    else
      var vals :- EvalArgs(n.args);
      Builtin(n.name, vals, ctx)
  }

  /** The left fold of the operator/operand pairs from `idx` onto `acc`. */
  function FoldChain(acc: Value, prog: seq<Node>, idx: nat): Result<Value>
    requires ChainFrom(prog, idx)
    decreases |prog| - idx
  {
    if idx >= |prog| then Ok(acc)
    else
      var rhs :- Operand(prog[idx + 1]);
      var v :- Apply(prog[idx].op, acc, rhs);
      FoldChain(v, prog, idx + 2)
  }

  /** `((x0 op1 x1) op2 x2) ...`, left to right with no precedence. */
  function ChainValue(prog: seq<Node>, ctx: Value): Result<Value>
    requires IsChain(prog)
  {
    var first :- Leading(prog[0], ctx);
    FoldChain(first, prog, 1)
  }

  /** Running the rest of a chain replaces the top of the stack by the
      fold of the remaining pairs. */
  lemma {:induction false} RunChain(prog: seq<Node>, ctx: Value, idx: nat, stack: seq<Value>, acc: Value)
    requires ChainFrom(prog, idx)
    ensures Run(prog, ctx, idx, stack + [acc]) ==
      if FoldChain(acc, prog, idx).Ok? then Ok(stack + [FoldChain(acc, prog, idx).value])
      else Err(FoldChain(acc, prog, idx).error)
    decreases |prog| - idx
  {
    if idx < |prog| {
      var st := stack + [acc];
      assert st[|st| - 1] == acc && st[..|st| - 1] == stack;
      var rhs := Operand(prog[idx + 1]);
      if rhs.Ok? {
        var v := Apply(prog[idx].op, acc, rhs.value);
        if v.Ok? {
          RunChain(prog, ctx, idx + 2, stack, v.value);
        }
      }
    }
  }

  /** A run never shrinks the stack below where it started, and a run that
      leaves the stack as deep as it found it has only read
      operator/operand pairs. */
  lemma {:induction false} RunShape(prog: seq<Node>, ctx: Value, idx: nat, stack: seq<Value>)
    ensures Run(prog, ctx, idx, stack).Ok? ==>
      var st := Run(prog, ctx, idx, stack).value;
      |st| >= |stack| && (|st| == |stack| ==> ChainFrom(prog, idx))
    decreases |prog| - idx
  {
    if idx < |prog| && Run(prog, ctx, idx, stack).Ok? {
      match prog[idx]
      case Var(v) =>
        RunShape(prog, ctx, idx + 1, stack + [v]);
      case Func(name, args) =>
        var v := Builtin(name, EvalArgs(args).value, ctx).value;
        RunShape(prog, ctx, idx + 1, stack + [v]);
      case Arith(op) =>
        var rhs := Operand(prog[idx + 1]).value;
        var v := Apply(op, stack[|stack| - 1], rhs).value;
        RunShape(prog, ctx, idx + 2, stack[..|stack| - 1] + [v]);
    }
  }

  /** Every node a successful run meets is executable. */
  lemma {:induction false} RunExecutable(prog: seq<Node>, ctx: Value, idx: nat, stack: seq<Value>)
    ensures Run(prog, ctx, idx, stack).Ok? ==> forall k :: idx <= k < |prog| ==> Executable(prog[k])
    decreases |prog| - idx
  {
    if idx < |prog| && Run(prog, ctx, idx, stack).Ok? {
      match prog[idx]
      case Var(v) =>
        RunExecutable(prog, ctx, idx + 1, stack + [v]);
      case Func(name, args) =>
        var v := Builtin(name, EvalArgs(args).value, ctx).value;
        RunExecutable(prog, ctx, idx + 1, stack + [v]);
      case Arith(op) =>
        var rhs := Operand(prog[idx + 1]).value;
        ApplyDomain(op, stack[|stack| - 1], rhs);
        var v := Apply(op, stack[|stack| - 1], rhs).value;
        RunExecutable(prog, ctx, idx + 2, stack[..|stack| - 1] + [v]);
    }
  }

  /** An operator with an empty stack fails, so a successful program opens
      with a value or a call, whose value is then the first on the stack. */
  lemma RunStartsWithOperand(prog: seq<Node>, ctx: Value)
    ensures Eval(prog, ctx).Ok? ==> |prog| > 0 && IsOperandNode(prog[0]) && Leading(prog[0], ctx).Ok?
  {
    var r := Run(prog, ctx, 0, []);
    if prog != [] {
      match prog[0]
      case Var(v) =>
      case Func(name, args) =>
      case Arith(op) =>
        assert r.Err?;
      case Punc(t) =>
        assert r.Err?;
    }
  }

  /** What `_evaluate_program` computes: it succeeds only on a chain
      `x0 op1 x1 ... opn xn` of executable nodes (so never with an operator
      first or last, an operator followed by anything but a value or a
      call, an operator other than `+ - / *`, or punctuation), and on a
      chain it yields the left fold `((x0 op1 x1) op2 x2) ...`. */
  lemma EvalIsLeftFold(prog: seq<Node>, ctx: Value)
    ensures Eval(prog, ctx).Ok? ==> IsChain(prog) && forall k :: 0 <= k < |prog| ==> Executable(prog[k])
    ensures IsChain(prog) ==> Eval(prog, ctx) == ChainValue(prog, ctx)
  {
    if Eval(prog, ctx).Ok? {
      RunExecutable(prog, ctx, 0, []);
      RunStartsWithOperand(prog, ctx);
      var v := Leading(prog[0], ctx).value;
      assert [] + [v] == [v];
      assert Run(prog, ctx, 0, []) == Run(prog, ctx, 1, [v]);
      RunShape(prog, ctx, 1, [v]);
    }
    if IsChain(prog) {
      var first := Leading(prog[0], ctx);
      if first.Ok? {
        assert Run(prog, ctx, 0, []) == Run(prog, ctx, 1, [] + [first.value]);
        RunChain(prog, ctx, 1, [], first.value);
      }
    }
  }

  /** The context reaches only the call that opens a chain: a chain that
      starts with a value gives the same result under every context. */
  lemma ContextReachesOnlyLeadingCall(prog: seq<Node>, c1: Value, c2: Value)
    requires IsChain(prog) && !prog[0].Func?
    ensures Eval(prog, c1) == Eval(prog, c2)
  {
    EvalIsLeftFold(prog, c1);
    EvalIsLeftFold(prog, c2);
  }

  /** A `lookup` call used as a right operand always fails, since it runs
      without the context. */
  lemma LookupOperandFails(args: seq<Arg>)
    ensures Operand(Func("lookup", args)).Err?
  {
    if EvalArgs(args).Ok? {
      LookupWithoutContextFails(EvalArgs(args).value);
    }
  }

  /** Call arguments are evaluated independently, each as a program of its
      own without the context: the call's argument values are exactly those
      results, and one failing argument fails the call. */
  lemma {:induction false} EvalArgsEach(args: seq<Arg>)
    ensures EvalArgs(args).Ok? <==> forall k :: 0 <= k < |args| ==> Eval(args[k].nodes, Null).Ok?
    ensures EvalArgs(args).Ok? ==>
      |EvalArgs(args).value| == |args|
      && forall k :: 0 <= k < |args| ==> EvalArgs(args).value[k] == Eval(args[k].nodes, Null).value
  {
    if args != [] {
      EvalArgsEach(args[1..]);
      assert forall k :: 1 <= k < |args| ==> args[1..][k - 1] == args[k];
      if !Eval(args[0].nodes, Null).Ok? {
        assert !(forall k :: 0 <= k < |args| ==> Eval(args[k].nodes, Null).Ok?);
      }
    }
  }

  // ---------------------------------------------------------------- examples

  /** `2 - 1 - 1` is `(2 - 1) - 1`. */
  lemma SubtractionAssociatesLeft()
    ensures Eval([Var(Num(2.0)), Arith("-"), Var(Num(1.0)), Arith("-"), Var(Num(1.0))], Null) == Ok(Num(0.0))
  {
  }

  /** `2 + 3 * 4` is `(2 + 3) * 4`. */
  lemma NoPrecedence()
    ensures Eval([Var(Num(2.0)), Arith("+"), Var(Num(3.0)), Arith("*"), Var(Num(4.0))], Null) == Ok(Num(20.0))
  {
  }

  /** Two values and nothing to combine them leave two values on the stack. */
  lemma TwoValuesAreUnbalanced()
    ensures Eval([Var(Num(1.0)), Var(Num(2.0))], Null) == Err(StackImbalance(2))
  {
  }

  /** `min()` has one empty argument, whose evaluation leaves no value. */
  lemma EmptyCallFails(ctx: Value)
    ensures Eval([Func("min", [Arg([])])], ctx) == Err(StackImbalance(0))
  {
  }

  /** `=` is an operator for the lexer but not for the evaluator. */
  lemma AssignmentIsUnimplemented()
    ensures Eval([Var(Num(1.0)), Arith("="), Var(Num(2.0))], Null) == Err(UnimplementedOperator("="))
  {
  }

  // ---------------------------------------------------------------- pipeline

  /** `evaluate_script(script, ctx)`: lex, parse, evaluate. */
  function Pipeline(lit: Literals, script: string, ctx: Value): Result<Value>
  {
    var words :- Tokens(script);
    var prog :- Program(lit, words);
    Eval(prog, ctx)
  }

  method EvaluateScript(lit: Literals, script: string, ctx: Value) returns (r: Result<Value>)
    ensures r == Pipeline(lit, script, ctx)
  {
    var words := DecomposeScript(script);
    if words.Err? {
      return Err(words.error);
    }
    var prog := ParseProgram(lit, words.value);
    if prog.Err? {
      return Err(prog.error);
    }
    r := EvaluateProgram(prog.value, ctx);
  }

  /** A script evaluates only if it lexes and every token is recognized by
      the parser, and the program it parses to is a chain. */
  lemma PipelineNeedsRecognizedWords(lit: Literals, script: string, ctx: Value)
    ensures Pipeline(lit, script, ctx).Ok? ==>
      && Tokens(script).Ok?
      && (forall w <- Tokens(script).value :: Recognized(lit, w))
      && IsChain(Program(lit, Tokens(script).value).value)
  {
    if Pipeline(lit, script, ctx).Ok? {
      ProgramNeedsRecognizedWords(lit, Tokens(script).value);
      EvalIsLeftFold(Program(lit, Tokens(script).value).value, ctx);
    }
  }

  /** Recognizers that accept no run of blanks. */
  ghost predicate BlankBlind(lit: Literals)
  {
    forall w :: IsBlankRun(w) ==>
      !lit.isFunctionName(w) && !lit.clockPattern(w) && !lit.floatPattern(w) && !lit.durationPattern(w)
  }

  /** A run of blanks is not a word the parser recognizes by itself. */
  lemma BlankRunUnrecognized(lit: Literals, w: string)
    requires BlankBlind(lit) && IsBlankRun(w)
    ensures !Recognized(lit, w)
  {
    assert !lit.isFunctionName(w) && !lit.clockPattern(w) && !lit.floatPattern(w) && !lit.durationPattern(w);
    assert !IsSubstring(w, PunctuationChars) by {
      SubstringHead(w, PunctuationChars);
      SeparatorsAreTheListedCharacters(w[0]);
    }
    assert !IsSubstring(w, MathOps) by {
      SubstringHead(w, MathOps);
      SeparatorsAreTheListedCharacters(w[0]);
    }
    assert w !in Keywords by {
      assert !IsLetter(w[0]);
      KeywordsAreWords();
    }
  }

  /** With recognizers that reject blanks, no script containing a space or
      a tab evaluates: the lexer emits the blank run as a token of its own,
      and the parser cannot step over it. */
  lemma ScriptsWithBlanksFail(lit: Literals, script: string, ctx: Value, k: nat)
    requires BlankBlind(lit)
    requires k < |script| && IsBlank(script[k])
    ensures Pipeline(lit, script, ctx).Err?
  {
    BlankScriptHasBlankToken(script, k);
    PipelineNeedsRecognizedWords(lit, script, ctx);
    if Tokens(script).Ok? {
      var t :| t in Tokens(script).value && IsBlankRun(t);
      BlankRunUnrecognized(lit, t);
    }
  }
}
