/** The texts the expression parsers of src/transpiler are written for, and
    what each parser reads them as: a call `f(a, b)` (parser.go:1002-1141),
    an array literal `[a, b]` and an access `a[i]` (collections.go:141-202,
    355-432, 548-590), a tuple literal `(a,b)` and a tuple index `t.1`
    (tuple.go:105-204, 275-305).  Each lemma builds the text from its parts
    and states, for every input of that form, when the parser accepts it
    and what it returns, in terms of the parts.
 */
module ExpressionForms {
  import opened Results
  import opened GoText
  import opened Types
  import opened Symbols
  import Lexer
  import Scanners
  import TuplePatterns
  import Expressions

  // ---------------------------------------------------------------------
  // Text facts

  /** A join of texts without `c`, on a separator without `c`, has no `c`. */
  lemma {:induction false} JoinLacks(ws: seq<string>, sep: string, c: char)
    requires forall i :: 0 <= i < |ws| ==> !HasChar(ws[i], c)
    requires !HasChar(sep, c)
    ensures !HasChar(Join(ws, sep), c)
    decreases |ws|
  {
    if |ws| > 1 {
      JoinLacks(ws[1..], sep, c);
      var rest := Join(ws[1..], sep);
      var j := Join(ws, sep);
      assert j == ws[0] + sep + rest;
      assert !HasChar(ws[0], c);
      forall i | 0 <= i < |j| ensures j[i] != c {
        if i < |ws[0]| {
          assert j[i] == ws[0][i];
        } else if i < |ws[0]| + |sep| {
          assert j[i] == sep[i - |ws[0]|];
        } else {
          assert j[i] == rest[i - |ws[0]| - |sep|];
        }
      }
    } else if |ws| == 1 {
      assert !HasChar(ws[0], c);
    }
  }

  /** The round-bracket count adds up over a concatenation. */
  lemma {:induction false} ParenNetAppend(a: string, b: string)
    ensures Lexer.ParenNet(a + b) == Lexer.ParenNet(a) + Lexer.ParenNet(b)
    decreases |b|
  {
    if |b| == 0 {
      assert a + b == a;
    } else {
      var b' := b[..|b| - 1];
      assert (a + b)[..|a + b| - 1] == a + b';
      assert (a + b)[|a + b| - 1] == b[|b| - 1];
      ParenNetAppend(a, b');
    }
  }

  /** A text without round brackets counts zero. */
  lemma {:induction false} ParenNetNone(s: string)
    requires !HasChar(s, '(') && !HasChar(s, ')')
    ensures Lexer.ParenNet(s) == 0
    decreases |s|
  {
    if |s| > 0 {
      var s' := s[..|s| - 1];
      assert s[|s| - 1] != '(' && s[|s| - 1] != ')';
      assert forall i :: 0 <= i < |s'| ==> s'[i] == s[i];
      ParenNetNone(s');
    }
  }

  /** `name` followed by `(`, a bracket-free text and `)` counts zero. */
  lemma CallBalanced(name: string, inner: string)
    requires !HasChar(name, '(') && !HasChar(name, ')')
    requires !HasChar(inner, '(') && !HasChar(inner, ')')
    ensures Lexer.ParenNet(name + "(" + inner + ")") == 0
  {
    ParenNetNone(name);
    ParenNetNone(inner);
    assert "("[..0] == "" && ")"[..0] == "";
    assert Lexer.ParenNet("(") == 1 && Lexer.ParenNet(")") == -1;
    ParenNetAppend(name, "(");
    ParenNetAppend(name + "(", inner);
    ParenNetAppend(name + "(" + inner, ")");
  }

  /** The first `(` of `name(...)` is the one after the name. */
  lemma OpenAfterName(name: string, rest: string)
    requires !HasChar(name, '(')
    ensures FindFrom(name + "(" + rest, "(", 0) == |name|
  {
    var s := name + "(" + rest;
    assert s[|name|..|name| + 1] == "(";
    forall j | 0 <= j < |name| ensures s[j] != '(' {
      assert s[j] == name[j];
    }
    FindFirst(s, "(", |name|, 0);
  }

  // ---------------------------------------------------------------------
  // Calls

  /** The text of a call: the name, then the arguments between round
      brackets with ", " between them. */
  function CallText(name: string, args: seq<string>): string {
    name + "(" + Join(args, ", ") + ")"
  }

  /** A call written from a name and plain arguments is read back with
      those arguments, when at least one level of depth is left: it fails
      when the name is not a function in scope, and otherwise it is
      accepted exactly when the number of arguments matches and the
      argument loop accepts them, giving what that loop gives. */
  lemma CallRead(name: string, args: seq<string>, tables: Tables, f: nat, line: int)
    requires |args| > 0 && forall i :: 0 <= i < |args| ==> Scanners.PlainArg(args[i])
    requires !HasChar(name, '(') && !HasChar(name, ')')
    ensures name !in tables.functions ==> Expressions.ParseFunctionCall(CallText(name, args), tables, f + 1, line).Err?
    ensures name in tables.functions ==>
      var fn := tables.functions[name];
      var r := Expressions.ParseFunctionCall(CallText(name, args), tables, f + 1, line);
      (r.Ok? <==> |args| == |fn.paramsOrder|
                  && Expressions.CheckArguments(args, fn.paramsOrder, fn, 0, 0, 0, tables, f, line).Ok?)
      && (r.Ok? ==>
            |args| == |fn.paramsOrder|
            && var c := Expressions.CheckArguments(args, fn.paramsOrder, fn, 0, 0, 0, tables, f, line).value;
            r.value == FunctionCall(name, c.exprs, c.arrays, c.tuples, fn.paramsOrder))
  {
    CallShape(name, args);
    var call := CallText(name, args);
    if name !in tables.functions {
      CallUnknown(call, name, args, tables, f + 1, line);
    } else {
      var fn := tables.functions[name];
      if |args| != |fn.paramsOrder| {
        CallArity(call, name, args, tables, f + 1, line);
      } else {
        var c := Expressions.CheckArguments(args, fn.paramsOrder, fn, 0, 0, 0, tables, f, line);
        if c.Ok? {
          CallAccepted(call, name, args, c.value, tables, f, line);
        } else {
          CallRejected(call, name, args, tables, f, line);
        }
      }
    }
  }

  /** With no depth left, no call is read. */
  lemma CallNoDepth(name: string, args: seq<string>, tables: Tables, line: int)
    requires |args| > 0 && forall i :: 0 <= i < |args| ==> Scanners.PlainArg(args[i])
    requires !HasChar(name, '(') && !HasChar(name, ')')
    ensures Expressions.ParseFunctionCall(CallText(name, args), tables, 0, line).Err?
  {
    CallShape(name, args);
  }

  /** `name(a, b)` is balanced, opens at the end of the name, and its
      bracketed part splits back into the arguments. */
  lemma CallShape(name: string, args: seq<string>)
    requires |args| > 0 && forall i :: 0 <= i < |args| ==> Scanners.PlainArg(args[i])
    requires !HasChar(name, '(') && !HasChar(name, ')')
    ensures var call := CallText(name, args);
      Lexer.ParenNet(call) == 0 && FindFrom(call, "(", 0) == |name| && call[..|name|] == name
      && |call[|name|..]| > 2 && Scanners.SplitArgs(call[|name|..][1..|call[|name|..]| - 1]) == args
  {
    var inner := Join(args, ", ");
    var call := CallText(name, args);
    assert forall i :: 0 <= i < |args| ==> !HasChar(args[i], '(') && !HasChar(args[i], ')');
    assert !HasChar(", ", '(') && !HasChar(", ", ')') by {
      assert forall i :: 0 <= i < 2 ==> ", "[i] == ',' || ", "[i] == ' ';
    }
    JoinLacks(args, ", ", '(');
    JoinLacks(args, ", ", ')');
    CallBalanced(name, inner);
    OpenAfterName(name, inner + ")");
    assert call == name + "(" + (inner + ")");
    assert call[..|name|] == name;
    Scanners.JoinFirst(args, ", ");
    assert call[|name|..][1..|call[|name|..]| - 1] == inner;
    Scanners.SplitArgsJoin(args);
  }

  /** A call of a name that is no function in scope fails. */
  lemma CallUnknown(call: string, name: string, args: seq<string>, tables: Tables, fuel: nat, line: int)
    requires Lexer.ParenNet(call) == 0 && FindFrom(call, "(", 0) == |name| && call[..|name|] == name
    requires |call[|name|..]| > 2 && Scanners.SplitArgs(call[|name|..][1..|call[|name|..]| - 1]) == args
    requires name !in tables.functions
    ensures Expressions.ParseFunctionCall(call, tables, fuel, line).Err?
  {
  }

  /** A call with the wrong number of arguments fails. */
  lemma CallArity(call: string, name: string, args: seq<string>, tables: Tables, fuel: nat, line: int)
    requires Lexer.ParenNet(call) == 0 && FindFrom(call, "(", 0) == |name| && call[..|name|] == name
    requires |call[|name|..]| > 2 && Scanners.SplitArgs(call[|name|..][1..|call[|name|..]| - 1]) == args
    requires name in tables.functions && |args| != |tables.functions[name].paramsOrder|
    ensures Expressions.ParseFunctionCall(call, tables, fuel, line).Err?
  {
  }

  /** A call whose arguments the loop refuses fails. */
  lemma CallRejected(call: string, name: string, args: seq<string>, tables: Tables, f: nat, line: int)
    requires Lexer.ParenNet(call) == 0 && FindFrom(call, "(", 0) == |name| && call[..|name|] == name
    requires |call[|name|..]| > 2 && Scanners.SplitArgs(call[|name|..][1..|call[|name|..]| - 1]) == args
    requires name in tables.functions && |args| == |tables.functions[name].paramsOrder|
    requires var fn := tables.functions[name];
      Expressions.CheckArguments(args, fn.paramsOrder, fn, 0, 0, 0, tables, f, line).Err?
    ensures Expressions.ParseFunctionCall(call, tables, f + 1, line).Err?
  {
  }

  /** A call whose arguments the loop accepts gives what the loop gives. */
  lemma CallAccepted(call: string, name: string, args: seq<string>, c: Expressions.CallArgs, tables: Tables, f: nat, line: int)
    requires Lexer.ParenNet(call) == 0 && FindFrom(call, "(", 0) == |name| && call[..|name|] == name
    requires |call[|name|..]| > 2 && Scanners.SplitArgs(call[|name|..][1..|call[|name|..]| - 1]) == args
    requires name in tables.functions && |args| == |tables.functions[name].paramsOrder|
    requires var fn := tables.functions[name];
      Expressions.CheckArguments(args, fn.paramsOrder, fn, 0, 0, 0, tables, f, line) == Ok(c)
    ensures Expressions.ParseFunctionCall(call, tables, f + 1, line)
         == Ok(FunctionCall(name, c.exprs, c.arrays, c.tuples, tables.functions[name].paramsOrder))
  {
  }

  /** With only primitive parameters the argument loop accepts exactly when
      every argument parses as an expression and each has the type of its
      parameter, and it returns those expressions. */
  lemma {:induction false} PrimitiveArguments(args: seq<string>, order: seq<ParamKind>, fn: Function, vc: nat,
                                              tables: Tables, fuel: nat, line: int)
    requires |args| == |order| && vc <= |fn.parameters|
    requires forall k :: 0 <= k < |order| ==> order[k] == VariableParameter
    ensures var c := Expressions.CheckArguments(args, order, fn, vc, 0, 0, tables, fuel, line);
      var es := Expressions.ParseEach(args, tables, fuel, line);
      (c.Ok? <==> es.Ok? && Expressions.ArgumentsFit(es.value, fn.parameters[vc..]))
      && (c.Ok? ==> c.value == Expressions.CallArgs(es.value, [], []))
    decreases |args|
  {
    if |args| > 0 {
      var e := Expressions.ParseExpression(args[0], tables, fuel, line);
      var es := Expressions.ParseEach(args, tables, fuel, line);
      var ps := fn.parameters[vc..];
      if e.Ok? && vc < |fn.parameters| {
        PrimitiveArguments(args[1..], order[1..], fn, vc + 1, tables, fuel, line);
        assert ps[1..] == fn.parameters[vc + 1..];
        var rest := Expressions.ParseEach(args[1..], tables, fuel, line);
        if rest.Ok? {
          assert es.value == [e.value] + rest.value;
          FitCons(e.value, rest.value, ps);
        }
      } else if e.Ok? && es.Ok? {
        assert |es.value| == |args| > 0;
      }
    }
  }

  /** Arguments fit their parameters exactly when the first fits the first
      and the rest fit the rest. */
  lemma FitCons(e: Expression, rest: seq<Expression>, ps: seq<Variable>)
    requires |ps| > 0
    ensures Expressions.ArgumentsFit([e] + rest, ps)
        <==> e.dataType == ps[0].dataType && Expressions.ArgumentsFit(rest, ps[1..])
  {
    var es := [e] + rest;
    if Expressions.ArgumentsFit(es, ps) {
      forall i | 0 <= i < |rest| ensures rest[i].dataType == ps[1..][i].dataType {
        assert es[i + 1] == rest[i];
      }
    }
    if e.dataType == ps[0].dataType && Expressions.ArgumentsFit(rest, ps[1..]) {
      forall i | 0 <= i < |es| ensures es[i].dataType == ps[i].dataType {
        if i > 0 { assert es[i] == rest[i - 1]; }
      }
    }
  }

  // ---------------------------------------------------------------------
  // Array literals and accesses

  /** The text of an array literal: the elements between square brackets
      with ", " between them. */
  function ArrayText(ws: seq<string>): string {
    "[" + Join(ws, ", ") + "]"
  }

  /** An array literal written from plain elements is read back element by
      element: it is accepted exactly when every element parses and has
      the expected type, and its length is the number of elements. */
  lemma BaseArrayRead(ws: seq<string>, expected: PrimType, tables: Tables, fuel: nat, line: int)
    requires |ws| > 0 && forall i :: 0 <= i < |ws| ==> Scanners.PlainElement(ws[i])
    requires fuel > 0
    ensures var r := Expressions.ParseBaseArray(ArrayText(ws), expected, tables, fuel, line);
      var es := Expressions.ParseEach(ws, tables, fuel - 1, line);
      (r.Ok? <==> es.Ok? && Expressions.AllOfType(es.value, expected))
      && (r.Ok? ==> r.value == BaseArray(es.value, expected, |ws|))
  {
    var s := ArrayText(ws);
    Scanners.JoinFirst(ws, ", ");
    assert s[1..] == Join(ws, ", ") + "]";
    Scanners.ElementsJoin(ws);
  }

  /** The same literal as an array-valued expression has one dimension, the
      number of elements, and the expected base type. */
  lemma ArrayLiteralRead(ws: seq<string>, expected: PrimType, tables: Tables, fuel: nat, line: int)
    requires |ws| > 0 && forall i :: 0 <= i < |ws| ==> Scanners.PlainElement(ws[i])
    requires fuel > 1
    ensures var r := Expressions.ParseArrayExpression(ArrayText(ws), expected, tables, fuel, line);
      var es := Expressions.ParseEach(ws, tables, fuel - 2, line);
      (r.Ok? <==> es.Ok? && Expressions.AllOfType(es.value, expected))
      && (r.Ok? ==> r.value == ArrayExpression(ArrayText(ws), ArrayType([|ws|], expected)))
  {
    var s := ArrayText(ws);
    TrimUnspaced(s);
    BaseArrayRead(ws, expected, tables, fuel - 1, line);
  }

  /** An array in scope, named on its own, reads as that array's type. */
  lemma ArrayNameRead(name: string, expected: PrimType, tables: Tables, fuel: nat, line: int)
    requires |name| > 0 && NoSpace(name) && name[0] != '['
    requires name in tables.arrays
    ensures Expressions.ParseArrayExpression(name, expected, tables, fuel, line)
         == Ok(ArrayExpression(name, tables.arrays[name].dataType))
  {
    TrimUnspaced(name);
  }

  /** The text of an access to one element: the name, then the index
      between square brackets. */
  function IndexText(name: string, index: string): string {
    name + "[" + index + "]"
  }

  /** An index that the source's bound check lets through: one that
      converts to an integer, or one whose failed conversion value is below
      the first size of the array. */
  predicate IndexPasses(items: seq<string>, t: ArrayType) {
    var num := Atoi(Join(items, " "));
    num.ok || (|t.dimensions| > 0 && num.n <= t.dimensions[0] - 1)
  }

  /** An access written from a name and an index text is read back, when
      at least one level of depth is left: it is accepted exactly when the
      name is an array in scope, the index parses as an Int expression and
      passes the bound check, and the result records that array and that
      expression. */
  lemma ArrayIndexingRead(name: string, index: string, tables: Tables, f: nat, line: int)
    requires NoSpace(name) && !HasChar(name, '[') && !HasChar(name, ']')
    requires |index| > 0 && NoSpace(index) && !HasChar(index, '[') && !HasChar(index, ']')
    ensures var r := Expressions.ParseArrayIndexing(IndexText(name, index), tables, f + 1, line);
      var e := Expressions.ParseExpression(index, tables, f, line);
      (r.Ok? <==> name in tables.arrays && e.Ok? && e.value.dataType == Int
                  && IndexPasses(e.value.items, tables.arrays[name].dataType))
      && (r.Ok? ==> name in tables.arrays && r.value == ArrayIndexing(name, tables.arrays[name].dataType, e.value))
  {
    var s := IndexText(name, index);
    IndexShape(name, index);
    Scanners.OneIndexGroup(index, line);
    IndexingOfShape(s, name, index, tables, f, line);
  }

  /** With no depth left, no access is read. */
  lemma ArrayIndexingNoDepth(name: string, index: string, tables: Tables, line: int)
    requires NoSpace(name) && !HasChar(name, '[') && !HasChar(name, ']')
    requires |index| > 0 && NoSpace(index) && !HasChar(index, '[') && !HasChar(index, ']')
    ensures Expressions.ParseArrayIndexing(IndexText(name, index), tables, 0, line).Err?
  {
    var s := IndexText(name, index);
    IndexShape(name, index);
    Scanners.OneIndexGroup(index, line);
    assert |Fields(Trim(s))| == 1;
  }

  /** The reading of any one-word text that splits as `name[index]`. */
  lemma IndexingOfShape(t: string, name: string, index: string, tables: Tables, f: nat, line: int)
    requires |name| < |t| && t[|name|] == '['
    requires Trim(t) == t && |Fields(t)| == 1 && Expressions.FirstSquare(t, 0) == |name|
    requires t[..|name|] == name
    requires Scanners.IndexGroupsFrom(t[|name|..], false, "", line) == Ok([index])
    ensures var r := Expressions.ParseArrayIndexing(t, tables, f + 1, line);
      var e := Expressions.ParseExpression(index, tables, f, line);
      (r.Ok? <==> name in tables.arrays && e.Ok? && e.value.dataType == Int
                  && IndexPasses(e.value.items, tables.arrays[name].dataType))
      && (r.Ok? ==> name in tables.arrays && r.value == ArrayIndexing(name, tables.arrays[name].dataType, e.value))
  {
    var e := Expressions.ParseExpression(index, tables, f, line);
    if name !in tables.arrays {
      IndexingUnknown(t, name, index, tables, f, line);
    } else if e.Err? || e.value.dataType != Int {
      IndexingNotInt(t, name, index, tables, f, line);
    } else if !IndexPasses(e.value.items, tables.arrays[name].dataType) {
      IndexingOutOfRange(t, name, index, e.value, tables, f, line);
    } else {
      IndexingAcceptedRead(t, name, index, e.value, tables, f, line);
    }
  }

  /** An access to a name that is not an array in scope fails. */
  lemma IndexingUnknown(t: string, name: string, index: string, tables: Tables, f: nat, line: int)
    requires |name| < |t| && t[|name|] == '['
    requires Trim(t) == t && |Fields(t)| == 1 && Expressions.FirstSquare(t, 0) == |name|
    requires t[..|name|] == name
    requires Scanners.IndexGroupsFrom(t[|name|..], false, "", line) == Ok([index])
    requires name !in tables.arrays
    ensures Expressions.ParseArrayIndexing(t, tables, f + 1, line).Err?
  {
    assert |Fields(Trim(t))| == 1;
  }

  /** An access whose index does not read as an Int fails. */
  lemma IndexingNotInt(t: string, name: string, index: string, tables: Tables, f: nat, line: int)
    requires |name| < |t| && t[|name|] == '['
    requires Trim(t) == t && |Fields(t)| == 1 && Expressions.FirstSquare(t, 0) == |name|
    requires t[..|name|] == name
    requires Scanners.IndexGroupsFrom(t[|name|..], false, "", line) == Ok([index])
    requires name in tables.arrays
    requires var e := Expressions.ParseExpression(index, tables, f, line);
      e.Err? || e.value.dataType != Int
    ensures Expressions.ParseArrayIndexing(t, tables, f + 1, line).Err?
  {
    assert |Fields(Trim(t))| == 1;
    EachOfOne(index, tables, f, line);
  }

  /** An access whose index fails the bound check fails. */
  lemma IndexingOutOfRange(t: string, name: string, index: string, e: Expression, tables: Tables, f: nat, line: int)
    requires |name| < |t| && t[|name|] == '['
    requires Trim(t) == t && |Fields(t)| == 1 && Expressions.FirstSquare(t, 0) == |name|
    requires t[..|name|] == name
    requires Scanners.IndexGroupsFrom(t[|name|..], false, "", line) == Ok([index])
    requires name in tables.arrays
    requires Expressions.ParseExpression(index, tables, f, line) == Ok(e)
    requires e.dataType == Int && !IndexPasses(e.items, tables.arrays[name].dataType)
    ensures Expressions.ParseArrayIndexing(t, tables, f + 1, line).Err?
  {
    EachOfOneOk(index, e, tables, f, line);
    IndexingRejected(t, name, index, e, tables, f, line);
  }

  /** The same, stated on the list of index expressions. */
  lemma IndexingRejected(t: string, name: string, index: string, e: Expression, tables: Tables, f: nat, line: int)
    requires |name| < |t| && t[|name|] == '['
    requires Trim(t) == t && |Fields(t)| == 1 && Expressions.FirstSquare(t, 0) == |name|
    requires t[..|name|] == name
    requires Scanners.IndexGroupsFrom(t[|name|..], false, "", line) == Ok([index])
    requires name in tables.arrays
    requires Expressions.ParseEach([index], tables, f, line) == Ok([e])
    requires e.dataType == Int && !IndexPasses(e.items, tables.arrays[name].dataType)
    ensures Expressions.ParseArrayIndexing(t, tables, f + 1, line).Err?
  {
    assert |Fields(Trim(t))| == 1;
    assert Expressions.AllOfType([e], Int);
    assert [e][0] == e;
  }

  /** An access that passes every check records the array and the index. */
  lemma IndexingAccepted(t: string, name: string, index: string, e: Expression, tables: Tables, f: nat, line: int)
    requires |name| < |t| && t[|name|] == '['
    requires Trim(t) == t && |Fields(t)| == 1 && Expressions.FirstSquare(t, 0) == |name|
    requires t[..|name|] == name
    requires Scanners.IndexGroupsFrom(t[|name|..], false, "", line) == Ok([index])
    requires name in tables.arrays
    requires Expressions.ParseEach([index], tables, f, line) == Ok([e])
    requires e.dataType == Int && IndexPasses(e.items, tables.arrays[name].dataType)
    ensures Expressions.ParseArrayIndexing(t, tables, f + 1, line) == Ok(ArrayIndexing(name, tables.arrays[name].dataType, e))
  {
    assert |Fields(Trim(t))| == 1;
    assert Expressions.AllOfType([e], Int);
    assert [e][0] == e;
  }

  /** The accepted case stated on the expression the index reads as. */
  lemma IndexingAcceptedRead(t: string, name: string, index: string, e: Expression, tables: Tables, f: nat, line: int)
    requires |name| < |t| && t[|name|] == '['
    requires Trim(t) == t && |Fields(t)| == 1 && Expressions.FirstSquare(t, 0) == |name|
    requires t[..|name|] == name
    requires Scanners.IndexGroupsFrom(t[|name|..], false, "", line) == Ok([index])
    requires name in tables.arrays
    requires Expressions.ParseExpression(index, tables, f, line) == Ok(e)
    requires e.dataType == Int && IndexPasses(e.items, tables.arrays[name].dataType)
    ensures Expressions.ParseArrayIndexing(t, tables, f + 1, line) == Ok(ArrayIndexing(name, tables.arrays[name].dataType, e))
  {
    EachOfOneOk(index, e, tables, f, line);
    IndexingAccepted(t, name, index, e, tables, f, line);
  }

  /** A list of one text that reads as `e` reads as `[e]`. */
  lemma EachOfOneOk(w: string, e: Expression, tables: Tables, fuel: nat, line: int)
    requires Expressions.ParseExpression(w, tables, fuel, line) == Ok(e)
    ensures Expressions.ParseEach([w], tables, fuel, line) == Ok([e])
  {
    EachOfOne(w, tables, fuel, line);
  }

  /** Reading a list of one text is reading that text. */
  lemma EachOfOne(w: string, tables: Tables, fuel: nat, line: int)
    ensures var e := Expressions.ParseExpression(w, tables, fuel, line);
      var es := Expressions.ParseEach([w], tables, fuel, line);
      (es.Ok? <==> e.Ok?) && (es.Ok? ==> es.value == [e.value])
  {
    assert [w][0] == w && [w][1..] == [];
    assert Expressions.ParseEach([], tables, fuel, line) == Ok([]);
  }

  /** The square-bracket search stops at the first bracket. */
  lemma {:induction false} FirstSquareAt(s: string, i: nat, k: nat)
    requires i <= k < |s| && s[k] == '['
    requires forall m :: i <= m < k ==> s[m] != '[' && s[m] != ']'
    ensures Expressions.FirstSquare(s, i) == k
    decreases k - i
  {
    if i < k {
      FirstSquareAt(s, i + 1, k);
    }
  }

  /** `name[index]` is one word, its own trim, and splits at the first
      square bracket into the name and the bracketed index. */
  lemma IndexShape(name: string, index: string)
    requires NoSpace(name) && !HasChar(name, '[') && !HasChar(name, ']')
    requires |index| > 0 && NoSpace(index)
    ensures var s := IndexText(name, index);
      Trim(s) == s && Fields(s) == [s] && Expressions.FirstSquare(s, 0) == |name|
      && s[..|name|] == name && s[|name|..] == "[" + index + "]"
  {
    var s := IndexText(name, index);
    assert s == name + ("[" + index + "]");
    assert s[0] != ' ' && s[|s| - 1] != ' ' by {
      if |name| > 0 { assert s[0] == name[0]; }
    }
    TrimUnspaced(s);
    assert NoSpace(s) by {
      forall i | 0 <= i < |s| ensures !IsSpace(s[i]) {
        if i < |name| { assert s[i] == name[i]; }
        else if |name| < i < |s| - 1 { assert s[i] == index[i - |name| - 1]; }
      }
    }
    FieldsOfWord(s);
    forall m | 0 <= m < |name| ensures s[m] != '[' && s[m] != ']' {
      assert s[m] == name[m];
    }
    FirstSquareAt(s, 0, |name|);
    assert s[..|name|] == name;
    assert s[|name|..] == "[" + index + "]";
  }

  // ---------------------------------------------------------------------
  // Tuples

  /** The text of a tuple literal: the elements between round brackets
      with "," between them. */
  function TupleText(ws: seq<string>): string {
    "(" + Join(ws, ",") + ")"
  }

  /** A tuple literal written from plain elements is read back element by
      element: it is accepted exactly when every element parses and the
      values fit the pattern, and then the values are returned. */
  lemma TupleLiteralRead(ws: seq<string>, pattern: TuplePattern, tables: Tables, fuel: nat, line: int)
    requires |ws| > 0 && forall i :: 0 <= i < |ws| ==> Scanners.PlainTupleElement(ws[i])
    requires fuel > 0
    ensures var r := Expressions.ParseTupleLiteral(TupleText(ws), pattern, tables, fuel, line);
      var es := Expressions.ParseEach(ws, tables, fuel - 1, line);
      (r.Ok? <==> es.Ok? && TuplePatterns.MatchTuplePattern(es.value, pattern, line).Ok?)
      && (r.Ok? ==> r.value == es.value)
  {
    var s := TupleText(ws);
    TrimUnspaced(s);
    assert s[1..|s| - 1] == Join(ws, ",");
    Scanners.TupleElementsJoin(ws);
  }

  /** The same literal as a tuple-valued expression is a tuple literal of
      those values. */
  lemma TupleExpressionLiteralRead(ws: seq<string>, pattern: TuplePattern, tables: Tables, fuel: nat, line: int)
    requires |ws| > 0 && forall i :: 0 <= i < |ws| ==> Scanners.PlainTupleElement(ws[i])
    requires fuel > 1
    ensures var r := Expressions.ParseTupleExpression(TupleText(ws), pattern, tables, fuel, line);
      var es := Expressions.ParseEach(ws, tables, fuel - 2, line);
      (r.Ok? <==> es.Ok? && TuplePatterns.MatchTuplePattern(es.value, pattern, line).Ok?)
      && (r.Ok? ==> r.value == TupleLiteral(es.value))
  {
    TrimUnspaced(TupleText(ws));
    TupleLiteralRead(ws, pattern, tables, fuel - 1, line);
  }

  /** A tuple in scope, named on its own and not also a function, reads as
      that tuple. */
  lemma TupleNameRead(name: string, pattern: TuplePattern, tables: Tables, fuel: nat, line: int)
    requires |name| > 0 && NoSpace(name) && !HasChar(name, '(')
    requires name in tables.tuples && name !in tables.functions
    ensures Expressions.ParseTupleExpression(name, pattern, tables, fuel, line) == Ok(TupleVariable(tables.tuples[name]))
  {
    TrimUnspaced(name);
    FindFirst(name, "(", |name|, 0);
    assert name[..|name|] == name;
    FieldsOfWord(name);
  }

  /** A tuple index written from a name without '.' and a number in the
      `int64` range is read back: accepted exactly when the name is a tuple
      in scope, with that tuple and that number. */
  lemma TupleIndexingRead(name: string, n: nat, tables: Tables, line: int)
    requires !HasChar(name, '.') && n <= MaxInt64
    ensures var r := Expressions.ParseTupleIndexing(name + "." + Itoa(n), tables, line);
      (r.Ok? <==> name in tables.tuples)
      && (r.Ok? ==> r.value == TupleIndexing(tables.tuples[name], n))
  {
    var d := Itoa(n);
    var s := name + "." + d;
    assert s[|name|..|name| + 1] == ".";
    forall j | 0 <= j < |name| ensures s[j] != '.' {
      assert s[j] == name[j];
    }
    FindFirst(s, ".", |name|, 0);
    assert s[..|name|] == name;
    assert s[|name| + 1..] == d;
    assert IsDigit(d[0]) && IsDigit(d[|d| - 1]);
    TrimUnspaced(d);
    AtoiDigits(d);
  }
}
