/** The Python values a Fython program computes with, and the Python
    operations the evaluator applies to them: the four arithmetic
    operators, `<`, and the built-ins `min` and `max`. */
module PyValues {
  import opened FythonBase

  /** Numbers (Python floats, taken as exact reals), strings, `None`, and
      dictionaries such as the lookup context. */
  datatype Value =
    | Num(n: real)
    | Str(s: string)
    | Null
    | Dict(entries: map<string, Value>)

  /** `a <op> b` for the operators the evaluator implements (fython_runner.py:32-41);
      any other operator is rejected before its operands are looked at. */
  function Apply(op: string, a: Value, b: Value): Result<Value>
  {
    if op == "+" then
      if a.Num? && b.Num? then Ok(Num(a.n + b.n))
      else if a.Str? && b.Str? then Ok(Str(a.s + b.s))
      else Err(TypeMismatch)
    else if op == "-" then
      if a.Num? && b.Num? then Ok(Num(a.n - b.n)) else Err(TypeMismatch)
    else if op == "/" then
      if a.Num? && b.Num? then (if b.n == 0.0 then Err(DivisionByZero) else Ok(Num(a.n / b.n)))
      else Err(TypeMismatch)
    else if op == "*" then
      if a.Num? && b.Num? then Ok(Num(a.n * b.n)) else Err(TypeMismatch)
    else Err(UnimplementedOperator(op))
  }

  predicate IsOperator(op: string) { op == "+" || op == "-" || op == "/" || op == "*" }

  /** Arithmetic succeeds exactly on two numbers (except division by zero)
      or, for `+`, on two strings, and then yields a number or a string. */
  lemma ApplyDomain(op: string, a: Value, b: Value)
    ensures !IsOperator(op) ==> Apply(op, a, b) == Err(UnimplementedOperator(op))
    ensures IsOperator(op) ==>
      (Apply(op, a, b).Ok? <==>
         (a.Num? && b.Num? && !(op == "/" && b.n == 0.0)) || (op == "+" && a.Str? && b.Str?))
    ensures Apply(op, a, b).Ok? ==> Apply(op, a, b).value.Num? || Apply(op, a, b).value.Str?
  {
  }

  /** Python's `a < b`: numbers with numbers, strings with strings, and a
      TypeError for every other pair. */
  function Less(a: Value, b: Value): Result<bool>
  {
    if a.Num? && b.Num? then Ok(a.n < b.n)
    else if a.Str? && b.Str? then Ok(StrLess(a.s, b.s))
    else Err(TypeMismatch)
  }

  /** Two values Python can order. */
  predicate Comparable(a: Value, b: Value) { (a.Num? && b.Num?) || (a.Str? && b.Str?) }

  /** `min(vals)`: the running minimum is replaced by an item only when the
      item is strictly smaller, so the first of equal minima wins. */
  function MinFrom(cur: Value, rest: seq<Value>): Result<Value>
    decreases |rest|
  {
    if rest == [] then Ok(cur)
    else
      var smaller :- Less(rest[0], cur);
      MinFrom(if smaller then rest[0] else cur, rest[1..])
  }

  /** `max(vals)`: the running maximum is replaced by an item only when the
      item is strictly greater. */
  function MaxFrom(cur: Value, rest: seq<Value>): Result<Value>
    decreases |rest|
  {
    if rest == [] then Ok(cur)
    else
      var greater :- Less(cur, rest[0]);
      MaxFrom(if greater then rest[0] else cur, rest[1..])
  }

  function MinOf(vals: seq<Value>): Result<Value>
  {
    if vals == [] then Err(EmptySequence) else MinFrom(vals[0], vals[1..])
  }

  function MaxOf(vals: seq<Value>): Result<Value>
  {
    if vals == [] then Err(EmptySequence) else MaxFrom(vals[0], vals[1..])
  }

  /** All values are numbers, or all are strings. */
  predicate Uniform(vals: seq<Value>)
  {
    (forall v <- vals :: v.Num?) || (forall v <- vals :: v.Str?)
  }

  /** `m` is not greater than any value of `vals`. */
  predicate NoneBelow(m: Value, vals: seq<Value>)
  {
    forall v <- vals :: Less(v, m) == Ok(false)
  }

  /** `m` is not smaller than any value of `vals`. */
  predicate NoneAbove(m: Value, vals: seq<Value>)
  {
    forall v <- vals :: Less(m, v) == Ok(false)
  }

  lemma LessTransitive(a: Value, b: Value, c: Value)
    requires Less(a, b) == Ok(true) && Less(b, c) == Ok(true)
    ensures Less(a, c) == Ok(true)
  {
    if a.Str? {
      StrLessTransitive(a.s, b.s, c.s);
    }
  }

  lemma LessTotal(a: Value, b: Value)
    requires Comparable(a, b)
    ensures a == b || Less(a, b) == Ok(true) || Less(b, a) == Ok(true)
  {
    if a.Str? {
      StrLessTotal(a.s, b.s);
    }
  }

  lemma LessIrreflexive(a: Value)
    requires a.Num? || a.Str?
    ensures Less(a, a) == Ok(false)
  {
    if a.Str? {
      StrLessIrreflexive(a.s);
    }
  }

  lemma {:induction false} MinFromSpec(cur: Value, rest: seq<Value>)
    requires cur.Num? || cur.Str?
    ensures MinFrom(cur, rest).Ok? <==> Uniform([cur] + rest)
    ensures MinFrom(cur, rest).Ok? ==>
      var m := MinFrom(cur, rest).value;
      (m == cur || m in rest) && NoneBelow(m, [cur] + rest)
    decreases |rest|
  {
    LessIrreflexive(cur);
    if rest != [] {
      var x := rest[0];
      assert [cur] + rest == [cur, x] + rest[1..];
      if Comparable(x, cur) {
        var next := if Less(x, cur).value then x else cur;
        MinFromSpec(next, rest[1..]);
        assert Uniform([cur] + rest) <==> Uniform([next] + rest[1..]);
        if MinFrom(cur, rest).Ok? {
          var m := MinFrom(cur, rest).value;
          forall v <- [cur] + rest ensures Less(v, m) == Ok(false) {
            if v == cur && next == x {
              if Less(cur, m) == Ok(true) {
                LessTransitive(x, cur, m);
              }
            } else if v == x && next == cur {
              if Less(x, m) == Ok(true) {
                assert cur in [next] + rest[1..];
                LessTotal(cur, m);
                if Less(m, cur) == Ok(true) {
                  LessTransitive(x, m, cur);
                }
              }
            } else {
              assert v in [next] + rest[1..];
            }
          }
        }
      } else {
        assert !Uniform([cur] + rest) by {
          assert cur in [cur] + rest && x in [cur] + rest;
        }
      }
    }
  }

  lemma {:induction false} MaxFromSpec(cur: Value, rest: seq<Value>)
    requires cur.Num? || cur.Str?
    ensures MaxFrom(cur, rest).Ok? <==> Uniform([cur] + rest)
    ensures MaxFrom(cur, rest).Ok? ==>
      var m := MaxFrom(cur, rest).value;
      (m == cur || m in rest) && NoneAbove(m, [cur] + rest)
    decreases |rest|
  {
    LessIrreflexive(cur);
    if rest != [] {
      var x := rest[0];
      assert [cur] + rest == [cur, x] + rest[1..];
      if Comparable(cur, x) {
        var next := if Less(cur, x).value then x else cur;
        MaxFromSpec(next, rest[1..]);
        assert Uniform([cur] + rest) <==> Uniform([next] + rest[1..]);
        if MaxFrom(cur, rest).Ok? {
          var m := MaxFrom(cur, rest).value;
          forall v <- [cur] + rest ensures Less(m, v) == Ok(false) {
            if v == cur && next == x {
              if Less(m, cur) == Ok(true) {
                LessTransitive(m, cur, x);
              }
            } else if v == x && next == cur {
              if Less(m, x) == Ok(true) {
                assert cur in [next] + rest[1..];
                LessTotal(cur, m);
                if Less(cur, m) == Ok(true) {
                  LessTransitive(cur, m, x);
                }
              }
            } else {
              assert v in [next] + rest[1..];
            }
          }
        }
      } else {
        assert !Uniform([cur] + rest) by {
          assert cur in [cur] + rest && x in [cur] + rest;
        }
      }
    }
  }

  /** `min` succeeds on one value of any kind, or on several numbers or
      several strings, and then returns one of them that no other is below. */
  lemma MinOfSpec(vals: seq<Value>)
    ensures MinOf(vals).Ok? <==> |vals| == 1 || (|vals| > 1 && Uniform(vals))
    ensures MinOf(vals).Ok? ==> MinOf(vals).value in vals
    ensures MinOf(vals).Ok? && |vals| > 1 ==> NoneBelow(MinOf(vals).value, vals)
    ensures vals == [] ==> MinOf(vals) == Err(EmptySequence)
  {
    if |vals| > 0 {
      assert vals == [vals[0]] + vals[1..];
      if vals[0].Num? || vals[0].Str? {
        MinFromSpec(vals[0], vals[1..]);
      } else if |vals| > 1 {
        assert !Comparable(vals[1], vals[0]);
      }
    }
  }

  /** `max` succeeds on one value of any kind, or on several numbers or
      several strings, and then returns one of them that no other is above. */
  lemma MaxOfSpec(vals: seq<Value>)
    ensures MaxOf(vals).Ok? <==> |vals| == 1 || (|vals| > 1 && Uniform(vals))
    ensures MaxOf(vals).Ok? ==> MaxOf(vals).value in vals
    ensures MaxOf(vals).Ok? && |vals| > 1 ==> NoneAbove(MaxOf(vals).value, vals)
    ensures vals == [] ==> MaxOf(vals) == Err(EmptySequence)
  {
    if |vals| > 0 {
      assert vals == [vals[0]] + vals[1..];
      if vals[0].Num? || vals[0].Str? {
        MaxFromSpec(vals[0], vals[1..]);
      } else if |vals| > 1 {
        assert !Comparable(vals[0], vals[1]);
      }
    }
  }
}
