/** Shared vocabulary of the Fython model: failures, ASCII character
    classes and the few string operations the Python code relies on
    (`"".join`, `str.split`, the substring test `w in s`, and `<` on
    strings). */
module FythonBase {

  datatype Option<+T> = None | Some(value: T)

  /** Every way a Fython evaluation can fail. The names follow what the
      code means to raise; where it names an exception class that does not
      exist the Python run fails with a NameError instead, which is still
      a failure of the whole evaluation. */
  datatype Error =
    | IllegalCharacter(c: char)                 // lexer: character outside every class
    | UnrecognizedSymbol(word: string)          // classifier: no rule applies
    | AtPosition(line: nat, pos: nat, inner: Error) // classifier error re-raised with its position
    | IndexOutOfRange                           // Python IndexError
    | MissingAttribute(name: string)            // Python AttributeError
    | ArityMismatch                             // Python TypeError for a call with too few arguments
    | ExpectedOpenParen(index: nat)             // argument list not opened by `(`
    | ConversionFailed(word: string)            // a literal converter rejected its word
    | NonTermination                            // the Python loop repeats the same step forever
    | InvalidOperand                            // right operand of arithmetic is not var or func
    | UnimplementedOperator(op: string)         // arithmetic node other than + - / *
    | UnexpectedInstruction                     // a punctuation node reached the evaluator
    | StackImbalance(size: nat)                 // not exactly one value left on the stack
    | UnimplementedFunction(name: string)       // built-in other than min, max, lookup
    | TooManyArguments                          // lookup with more than one argument
    | TypeMismatch                              // Python TypeError on operands
    | DivisionByZero                            // Python ZeroDivisionError
    | EmptySequence                             // min()/max() of an empty list

  datatype Result<+T> = Ok(value: T) | Err(error: Error) {
    predicate IsFailure() { Err? }
    function PropagateFailure<U>(): Result<U> requires Err? { Err(error) }
    function Extract(): T requires Ok? { value }
  }

  // ASCII versions of str.isalpha, str.isdigit and str.isalnum.
  predicate IsLetter(c: char) { 'a' <= c <= 'z' || 'A' <= c <= 'Z' }
  predicate IsDigit(c: char) { '0' <= c <= '9' }
  predicate IsAlnum(c: char) { IsLetter(c) || IsDigit(c) }

  /** `str.isalnum()` on a whole string: non-empty and every character alphanumeric. */
  predicate IsAlnumString(s: string) { |s| > 0 && forall k :: 0 <= k < |s| ==> IsAlnum(s[k]) }

  /** `"".join(ws)` */
  function Concat(ws: seq<string>): string
  {
    if ws == [] then [] else ws[0] + Concat(ws[1..])
  }

  lemma {:induction false} ConcatAppend(a: seq<string>, b: seq<string>)
    ensures Concat(a + b) == Concat(a) + Concat(b)
  {
    if a != [] {
      assert (a + b)[1..] == a[1..] + b;
      ConcatAppend(a[1..], b);
    } else {
      assert a + b == b;
    }
  }

  lemma {:induction false} ConcatAround(ws: seq<string>, k: nat)
    requires k < |ws|
    ensures Concat(ws) == Concat(ws[..k]) + ws[k] + Concat(ws[k + 1..])
  {
    var front, back := ws[..k], ws[k + 1..];
    var rest := [ws[k]] + back;
    assert ws == front + rest;
    ConcatAppend(front, rest);
    assert rest[0] == ws[k] && rest[1..] == back;
  }

  /** Number of occurrences of `x` in `s`. */
  function Count<T(==)>(s: seq<T>, x: T): nat
  {
    if s == [] then 0 else Count(s[..|s| - 1], x) + (if s[|s| - 1] == x then 1 else 0)
  }

  /** `s.split(d)` for a one-element separator: the maximal pieces between
      occurrences of `d`, so `k` separators give `k + 1` pieces, some of
      them possibly empty. */
  function SplitOn<T(==)>(s: seq<T>, d: T): (r: seq<seq<T>>)
    ensures |r| >= 1
  {
    if s == [] then [[]]
    else
      var init := SplitOn(s[..|s| - 1], d);
      if s[|s| - 1] == d then init + [[]]
      else init[..|init| - 1] + [init[|init| - 1] + [s[|s| - 1]]]
  }

  /** Appending one element: a separator starts a new empty piece, any
      other element extends the last piece. */
  lemma SplitOnPush<T>(s: seq<T>, x: T, d: T, front: seq<seq<T>>, last: seq<T>)
    requires SplitOn(s, d) == front + [last]
    ensures SplitOn(s + [x], d) == if x == d then front + [last] + [[]] else front + [last + [x]]
  {
    assert (s + [x])[..|s|] == s;
    var init := front + [last];
    assert init[..|init| - 1] == front;
  }

  /** Gluing the pieces back together after one more character: a
      separator adds nothing, any other character is appended. */
  lemma ConcatSplitPush(s: string, x: char, d: char)
    ensures Concat(SplitOn(s + [x], d)) == Concat(SplitOn(s, d)) + (if x == d then [] else [x])
  {
    var init := SplitOn(s, d);
    assert (s + [x])[..|s|] == s;
    if x == d {
      assert SplitOn(s + [x], d) == init + [[]];
      ConcatAppend(init, [[]]);
      assert Concat([[]]) == [];
    } else {
      var front, last := init[..|init| - 1], init[|init| - 1];
      assert SplitOn(s + [x], d) == front + [last + [x]];
      assert init == front + [last];
      ConcatAppend(front, [last]);
      ConcatAppend(front, [last + [x]]);
      assert Concat([last]) == last;
      assert Concat([last + [x]]) == last + [x];
    }
  }

  /** `d.join(parts)`: the inverse of SplitOn. */
  function JoinWith<T>(parts: seq<seq<T>>, d: T): seq<T>
  {
    if parts == [] then []
    else if |parts| == 1 then parts[0]
    else JoinWith(parts[..|parts| - 1], d) + [d] + parts[|parts| - 1]
  }

  /** Extending the last piece extends the joined sequence. */
  lemma JoinWithExtendLast<T>(parts: seq<seq<T>>, x: T, d: T)
    requires |parts| >= 1
    ensures JoinWith(parts[..|parts| - 1] + [parts[|parts| - 1] + [x]], d) == JoinWith(parts, d) + [x]
  {
    var n := |parts|;
    var r := parts[..n - 1] + [parts[n - 1] + [x]];
    if n > 1 {
      assert r[..n - 1] == parts[..n - 1];
    }
  }

  /** Joining the pieces with the separator gives the sequence back. */
  lemma {:induction false} SplitJoin<T>(s: seq<T>, d: T)
    ensures JoinWith(SplitOn(s, d), d) == s
  {
    if s != [] {
      var t, last := s[..|s| - 1], s[|s| - 1];
      assert s == t + [last];
      SplitJoin(t, d);
      if last != d {
        JoinWithExtendLast(SplitOn(t, d), last, d);
      }
    }
  }

  /** `k` occurrences of the separator give `k + 1` pieces. */
  lemma {:induction false} SplitCount<T>(s: seq<T>, d: T)
    ensures |SplitOn(s, d)| == Count(s, d) + 1
  {
    if s != [] {
      SplitCount(s[..|s| - 1], d);
    }
  }

  /** No piece contains the separator. */
  lemma {:induction false} SplitPiecesAvoid<T>(s: seq<T>, d: T)
    ensures forall p, x :: p in SplitOn(s, d) && x in p ==> x != d
  {
    if s != [] {
      var t, last := s[..|s| - 1], s[|s| - 1];
      SplitPiecesAvoid(t, d);
      var init := SplitOn(t, d);
      if last != d {
        var n := |init|;
        var r := SplitOn(s, d);
        assert r == init[..n - 1] + [init[n - 1] + [last]];
        forall p, x | p in r && x in p ensures x != d {
          if p != init[n - 1] + [last] {
            assert p in init;
          }
        }
      }
    }
  }

  /** Python's `w in s` on two strings: `w` is a contiguous piece of `s`. */
  predicate IsSubstring(w: string, s: string)
  {
    (|w| <= |s| && s[..|w|] == w) || (|s| > 0 && IsSubstring(w, s[1..]))
  }

  lemma {:induction false} SubstringChars(w: string, s: string, k: nat)
    requires IsSubstring(w, s) && k < |w|
    ensures w[k] in s
  {
    if |w| <= |s| && s[..|w|] == w {
      assert s[k] == w[k];
    } else {
      SubstringChars(w, s[1..], k);
    }
  }

  lemma SubstringHead(w: string, s: string)
    requires |w| > 0
    ensures IsSubstring(w, s) ==> w[0] in s
  {
    if IsSubstring(w, s) {
      SubstringChars(w, s, 0);
    }
  }

  /** A one-character string is a substring exactly when its character occurs. */
  lemma {:induction false} CharSubstring(c: char, s: string)
    ensures IsSubstring([c], s) <==> c in s
  {
    if s != [] {
      CharSubstring(c, s[1..]);
      assert s == [s[0]] + s[1..];
    }
  }

  /** Python's `<` on two strings: lexicographic order of code points. */
  predicate StrLess(a: string, b: string)
  {
    if |a| == 0 then |b| > 0
    else if |b| == 0 then false
    else if a[0] != b[0] then a[0] < b[0]
    else StrLess(a[1..], b[1..])
  }

  lemma {:induction false} StrLessIrreflexive(a: string)
    ensures !StrLess(a, a)
  {
    if |a| > 0 { StrLessIrreflexive(a[1..]); }
  }

  lemma {:induction false} StrLessTotal(a: string, b: string)
    ensures a == b || StrLess(a, b) || StrLess(b, a)
  {
    if |a| > 0 && |b| > 0 && a[0] == b[0] {
      StrLessTotal(a[1..], b[1..]);
      if a[1..] == b[1..] {
        assert a == [a[0]] + a[1..] && b == [b[0]] + b[1..];
      }
    }
  }

  lemma {:induction false} StrLessTransitive(a: string, b: string, c: string)
    requires StrLess(a, b) && StrLess(b, c)
    ensures StrLess(a, c)
  {
    if |a| > 0 && |b| > 0 && |c| > 0 && a[0] == b[0] && b[0] == c[0] {
      StrLessTransitive(a[1..], b[1..], c[1..]);
    }
  }
}
