/** The expression checker of src/transpiler: `parseExpression` with its
    token-adjacency rules (parser.go:239-510), the type checker
    `expressionType` (types.go:194-391), calls (parser.go:1002-1141),
    array literals, indexing and array-valued expressions
    (collections.go:141-202, 355-432, 548-590) and tuple-valued expressions
    (tuple.go:105-204, 275-305).

    These functions call one another on pieces of their input.  Every such
    descent into a nested piece spends one unit of `fuel`; when none is
    left the result is an error.  Loops over the pieces of one level run on
    the same fuel.
 */
module Expressions {
  import opened Results
  import opened Tokens
  import opened GoText
  import opened Types
  import opened Symbols
  import Lexer
  import Terms
  import Scanners
  import TuplePatterns

  const TooDeep: string := "expression nested too deeply"

  /** What may stand before a value: an operator, an opening bracket, or
      the start of the expression. */
  predicate ValuePrevOk(prev: string) {
    IsOperator(prev) || prev == "(" || prev == "{" || prev == ""
  }

  /** What may stand after a value: an operator, a closing bracket, or the
      end of the expression. */
  predicate ValueNextOk(next: string) {
    IsOperator(next) || next == ")" || next == "}" || next == ""
  }

  /** A value token the adjacency rules apply to: it does not start with a
      digit and has no call, index or tuple-index syntax. */
  predicate PlainValue(v: string) {
    |v| > 0 && !IsDigitChar(v[0]) && Scanners.SyntaxFrom(v, 0, false) == |v|
  }

  /** The token before position `i`, or "" at the start. */
  function Before(toks: seq<string>, i: nat): string
    requires i < |toks|
  {
    if i == 0 then "" else toks[i - 1]
  }

  /** The token after position `i`, or "" at the end. */
  function After(toks: seq<string>, i: nat): string
    requires i < |toks|
  {
    if i == |toks| - 1 then "" else toks[i + 1]
  }

  /** How many parameters of kind `k` a parameter order lists. */
  function CountKind(order: seq<ParamKind>, k: ParamKind): nat {
    if |order| == 0 then 0 else (if order[0] == k then 1 else 0) + CountKind(order[1..], k)
  }

  /** The argument expressions have, in order, the types of the first
      parameters. */
  predicate ArgumentsFit(es: seq<Expression>, ps: seq<Variable>) {
    |es| <= |ps| && forall i :: 0 <= i < |es| ==> es[i].dataType == ps[i].dataType
  }

  /** Whether every expression has type `t`. */
  predicate AllOfType(es: seq<Expression>, t: PrimType) {
    forall i :: 0 <= i < |es| ==> es[i].dataType == t
  }

  /** The one member of a one-element set of types. */
  function OnlyType(s: set<PrimType>): (t: PrimType)
    requires |s| == 1
    ensures s == {t}
  {
    var t := if Int in s then Int else if Float in s then Float else if Bool in s then Bool
             else if Byte in s then Byte else if String in s then String else IO;
    NotEmpty(s);
    Singleton(s, t);
    t
  }

  lemma NotEmpty(s: set<PrimType>)
    requires |s| == 1
    ensures Int in s || Float in s || Bool in s || Byte in s || String in s || IO in s
  {
    var u :| u in s;
    match u case Int => case Float => case Bool => case Byte => case String => case IO =>
  }

  lemma Singleton<T>(s: set<T>, x: T)
    requires |s| == 1 && x in s
    ensures s == {x}
  {
    var rest := s - {x};
    assert |rest| == 0;
    assert rest == {};
  }

  /** The arguments of a call after checking: the expressions passed to
      primitive parameters, and the types of the array and tuple ones. */
  datatype CallArgs = CallArgs(exprs: seq<Expression>, arrays: seq<ArrayType>, tuples: seq<TuplePattern>)

  // ---------------------------------------------------------------------
  // parseExpression and the adjacency checks

  /** Tokenises `expr`, checks what stands next to each token, and types
      the tokens. */
  function ParseExpression(expr: string, tables: Tables, fuel: nat, line: int): (r: Result<Expression>)
    ensures r.Ok? ==> Lexer.Tokenize(expr, line) == Ok(r.value.items)
    ensures r.Ok? ==> |r.value.items| > 0
    ensures r.Err? ==> r.line == line
    decreases fuel, 0
  {
    if fuel == 0 then Err(line, TooDeep)
    else
      var toks :- Lexer.Tokenize(expr, line);
      var ok :- CheckTokens(toks, 0, tables, fuel - 1, line);
      var t :- ExpressionType(toks, tables, fuel - 1, line);
      Ok(Expression(toks, t))
  }

  /** The adjacency loop of `parseExpression` from token `i` on. */
  function CheckTokens(toks: seq<string>, i: nat, tables: Tables, fuel: nat, line: int): (r: Result<()>)
    requires i <= |toks|
    ensures r.Ok? ==> forall k :: i <= k < |toks| && PlainValue(toks[k]) && !IsOperator(toks[k]) && !Lexer.IsBracketToken(toks[k]) ==>
      ValuePrevOk(Before(toks, k)) && ValueNextOk(After(toks, k))
    ensures r.Err? ==> r.line == line
    decreases fuel, 2, |toks| - i
  {
    if i == |toks| then Ok(())
    else
      var tok := toks[i];
      var prev := Before(toks, i);
      var next := After(toks, i);
      var ok :-
        if Lexer.IsBracketToken(tok) then Ok(())
        else if IsBinary(tok) && tok != "-" then CheckBinary(tok, prev, next, tables, fuel, line)
        else if tok == "-" then
          if i == 0 || IsBinary(prev) then CheckUnary(tok, prev, next, tables, fuel, line)
          else CheckBinary(tok, prev, next, tables, fuel, line)
        else if IsUnary(tok) then CheckUnary(tok, prev, next, tables, fuel, line)
        else CheckValue(tok, prev, next, tables, fuel, line);
      CheckTokens(toks, i + 1, tables, fuel, line)
  }

  /** Checks a value token.  A token that starts with a digit only has to
      be a literal.  A call, an array access or a tuple index is parsed as
      such.  Any other token must be a variable or a literal and must stand
      between an operator, a bracket or an end on each side. */
  function CheckValue(value: string, prev: string, next: string, tables: Tables, fuel: nat, line: int): (r: Result<()>)
    ensures r.Ok? ==> value != ""
    ensures PlainValue(value) ==>
      (r.Ok? <==> (value in tables.vars || GetValType(value, line).Ok?) && ValuePrevOk(prev) && ValueNextOk(next))
    ensures r.Err? ==> r.line == line
    decreases fuel, 0
  {
    if value == "" then Err(line, "expected value before operator")
    else if IsDigitChar(value[0]) then
      var t :- GetValType(value, line);
      Ok(())
    else
      var k := Scanners.SyntaxFrom(value, 0, false);
      if k < |value| && value[k] == '.' then
        var ti :- ParseTupleIndexing(value, tables, line);
        Ok(())
      else if k < |value| then
        if fuel == 0 then Err(line, TooDeep)
        else if value[k] == '(' then
          var call :- ParseFunctionCall(value, tables, fuel - 1, line);
          Ok(())
        else
          var a :- ParseArrayIndexing(value, tables, fuel - 1, line);
          Ok(())
      else if value !in tables.vars && GetValType(value, line).Err? then
        Err(line, "unexpected token " + value)
      else if !ValuePrevOk(prev) then Err(line, "unexpected token " + prev + " before value " + value)
      else if !ValueNextOk(next) then Err(line, "unexpected token " + next + " after value " + value)
      else Ok(())
  }

  /** A unary operator may follow only a binary operator, an opening
      bracket or the start; the token after it is checked as a value. */
  function CheckUnary(op: string, prev: string, next: string, tables: Tables, fuel: nat, line: int): (r: Result<()>)
    ensures r.Ok? ==> IsBinary(prev) || prev == "" || prev == "(" || prev == "{"
    ensures r.Ok? ==> next != ""
    ensures r.Err? ==> r.line == line
    decreases fuel, 1
  {
    if !IsBinary(prev) && prev != "" && prev != "(" && prev != "{" then
      Err(line, "invalid token " + prev + " before unary operator " + op)
    else CheckValue(next, op, "", tables, fuel, line)
  }

  /** A binary operator next to a bracket is left to the bracket's
      neighbours; otherwise both sides are checked as values, except that a
      unary operator may follow it. */
  function CheckBinary(op: string, prev: string, next: string, tables: Tables, fuel: nat, line: int): (r: Result<()>)
    ensures r.Ok? && !Lexer.IsBracketToken(prev) && !Lexer.IsBracketToken(next) ==> prev != "" && (IsUnary(next) || next != "")
    ensures r.Err? ==> r.line == line
    decreases fuel, 1
  {
    if Lexer.IsBracketToken(prev) || Lexer.IsBracketToken(next) then Ok(())
    else
      var ok :- CheckValue(prev, "", op, tables, fuel, line);
      if IsUnary(next) then Ok(()) else CheckValue(next, op, "", tables, fuel, line)
  }

  // ---------------------------------------------------------------------
  // expressionType

  /** The type of a token sequence.  One enclosing bracket pair is
      removed; then a single token, a unary operator with its operand, and
      longer sequences are typed each in their own way. */
  function ExpressionType(e: seq<string>, tables: Tables, fuel: nat, line: int): (r: Result<PrimType>)
    ensures r.Ok? ==> |e| > 0
    ensures r.Err? ==> r.line == line
    decreases fuel, 1
  {
    if |e| == 0 then Err(line, "Expression is empty")
    else
      var s :- Terms.StripOuter(e, line);
      if |s| == 1 then TokenType(s[0], tables, fuel, line)
      else if |s| == 2 then UnaryType(s, tables, fuel, line)
      else LongType(s, tables, fuel, line)
  }

  /** A single token is a call, an array access, a variable or a literal;
      an operator alone has no type. */
  function TokenType(t: string, tables: Tables, fuel: nat, line: int): (r: Result<PrimType>)
    ensures r.Err? ==> r.line == line
    decreases fuel, 0
  {
    if IsOperator(t) then Err(line, "Expression contains only operators and no values")
    else if HasChar(t, '(') then
      if fuel == 0 then Err(line, TooDeep)
      else
        var call :- ParseFunctionCall(t, tables, fuel - 1, line);
        Ok(tables.functions[call.functionName].returnType)
    else if HasChar(t, '[') then
      if fuel == 0 then Err(line, TooDeep)
      else
        var a :- ParseArrayIndexing(t, tables, fuel - 1, line);
        Ok(a.dataType.baseType)
    else if t in tables.vars then Ok(tables.vars[t].dataType)
    else GetValType(t, line)
  }

  /** Two tokens are `-` before a number or `!` before a boolean; the
      operand is parsed again as an expression of its own. */
  function UnaryType(s: seq<string>, tables: Tables, fuel: nat, line: int): (r: Result<PrimType>)
    requires |s| == 2
    ensures r.Ok? ==> s[0] in UnaryOperators
    ensures r.Ok? && s[0] == "-" ==> IsNumeric(r.value)
    ensures r.Ok? && s[0] == "!" ==> r.value == Bool
    ensures r.Err? ==> r.line == line
    decreases fuel, 0
  {
    if s[0] != "-" && s[0] != "!" then
      Err(line, "expressions of length 2 tokens must begin with unary operators - or !")
    else if fuel == 0 then Err(line, TooDeep)
    else
      var x :- ParseExpression(s[1], tables, fuel - 1, line);
      if s[0] == "-" then
        if IsNumeric(x.dataType) then Ok(x.dataType)
        else Err(line, "use of unary operator - with non-numeric data type")
      else if x.dataType == Bool then Ok(Bool)
      else Err(line, "use of unary operator ! with non-boolean data type")
  }

  /** Three or more tokens: every top-level operator adds a type, and
      exactly one type must be found. */
  function LongType(s: seq<string>, tables: Tables, fuel: nat, line: int): (r: Result<PrimType>)
    ensures r.Err? ==> r.line == line
    decreases fuel, 0
  {
    if fuel == 0 then Err(line, TooDeep)
    else
      var found :- CollectTypes(s, -1, {}, tables, fuel - 1, line);
      if |found| == 0 then Err(line, "expression has no data type")
      else if |found| != 1 then Err(line, "expression contains more than one data type")
      else Ok(OnlyType(found))
  }

  /** The operator loop of `expressionType`: from the operator at `prev`,
      the types each following top-level operator adds to `found`. */
  function CollectTypes(e: seq<string>, prev: int, found: set<PrimType>, tables: Tables, fuel: nat, line: int)
    : (r: Result<set<PrimType>>)
    requires -1 <= prev < |e|
    ensures r.Ok? ==> found <= r.value
    ensures r.Err? ==> r.line == line
    decreases fuel, 4, |e| - prev
  {
    match Terms.NextOperator(e, prev)
    case None => Ok(found)
    case Some(j) =>
      var added :- OperatorResult(e, j, tables, fuel, line);
      CollectTypes(e, j, found + added, tables, fuel, line)
  }

  /** Whether the operator at `j` is used as a unary one: `!`, or `-` at
      the start or after a binary operator. */
  predicate UsedAsUnary(e: seq<string>, j: nat)
    requires j < |e|
  {
    (e[j] == "-" && (j == 0 || IsBinary(e[j - 1]))) || e[j] == "!"
  }

  /** What the operator at `j` adds to the collected types. */
  function OperatorResult(e: seq<string>, j: nat, tables: Tables, fuel: nat, line: int): (r: Result<set<PrimType>>)
    requires j < |e|
    ensures r.Ok? ==> |r.value| <= 1
    ensures r.Err? ==> r.line == line
    decreases fuel, 3
  {
    if UsedAsUnary(e, j) then UnaryOperand(e, j, tables, fuel, line)
    else BinaryOperands(e, j, tables, fuel, line)
  }

  /** A unary operator checks the term after it and adds nothing. */
  function UnaryOperand(e: seq<string>, j: nat, tables: Tables, fuel: nat, line: int): (r: Result<set<PrimType>>)
    requires j < |e|
    ensures r.Ok? ==> r.value == {}
    ensures r.Err? ==> r.line == line
    decreases fuel, 2
  {
    var n :- Terms.NextTerm(e, j, line);
    var t :- ExpressionType(e[n.lo..n.hi], tables, fuel, line);
    if e[j] == "-" then
      if IsNumeric(t) then Ok({}) else Err(line, "Unary operator '-' found before non numeric type")
    else if t == Bool then Ok({})
    else Err(line, "Unary operator '!' used before non-boolean value")
  }

  /** A binary operator types the terms on both sides and checks them. */
  function BinaryOperands(e: seq<string>, j: nat, tables: Tables, fuel: nat, line: int): (r: Result<set<PrimType>>)
    requires j < |e|
    ensures r.Ok? ==> |r.value| <= 1
    ensures r.Err? ==> r.line == line
    decreases fuel, 2
  {
    var p :- Terms.PreviousTerm(e, j, line);
    var n :- Terms.NextTerm(e, j, line);
    var pt :- ExpressionType(e[p.lo..p.hi], tables, fuel, line);
    var nt :- ExpressionType(e[n.lo..n.hi], tables, fuel, line);
    BinaryTypes(e[j], pt, nt, line)
  }

  /** The operand check of a binary operator once the types before and
      after it are known, and the type it adds. */
  function BinaryTypes(op: string, pt: PrimType, nt: PrimType, line: int): (r: Result<set<PrimType>>)
    ensures r.Ok? ==> |r.value| <= 1
    ensures r.Err? ==> r.line == line
  {
    if op == "-" then
      if !IsNumeric(pt) || !IsNumeric(nt) then Err(line, "binary operator '-' used with non-numeric values")
      else Ok({nt})
    else if op == "+" then
      if pt == String && nt == String then Ok({String})
      else if !IsNumeric(pt) then Err(line, "binary operator '+' used after non-numeric type")
      else if !IsNumeric(nt) then Err(line, "binary operator '+' used before non-numeric type")
      else if pt != nt then Err(line, "binary operator '+' used with both integer and float values")
      else Ok({nt})
    else if op == "*" || op == "/" then
      if !IsNumeric(pt) then Err(line, "binary operator used after non-numeric type")
      else if !IsNumeric(nt) then Err(line, "binary operator used before non-numeric type")
      else if pt != nt then Err(line, "binary operator used with both integer and float values")
      else Ok({nt})
    else if op == "||" || op == "&&" then
      if pt != Bool then Err(line, "binary operator used after non-boolean type")
      else if nt != Bool then Err(line, "binary operator used before non-boolean type")
      else Ok({Bool})
    else if op in ComparativeOperators then
      if pt != nt then Err(line, "binary operator used with two different types")
      else Ok({Bool})
    else Ok({})
  }

  // ---------------------------------------------------------------------
  // Calls

  /** Checks a call `f(a, b)`: the brackets balance, `f` is a function in
      scope, the number of arguments equals its number of parameters, and
      each argument fits its parameter. */
  function ParseFunctionCall(call: string, tables: Tables, fuel: nat, line: int): (r: Result<FunctionCall>)
    ensures r.Ok? ==> Lexer.ParenNet(call) == 0
    ensures r.Ok? ==> r.value.functionName == call[..FindFrom(call, "(", 0)]
    ensures r.Ok? ==> r.value.functionName in tables.functions
    ensures r.Ok? ==> r.value.order == tables.functions[r.value.functionName].paramsOrder
    ensures r.Ok? ==> |r.value.parameters| == CountKind(r.value.order, VariableParameter)
    ensures r.Ok? ==> ArgumentsFit(r.value.parameters, tables.functions[r.value.functionName].parameters)
    ensures r.Err? ==> r.line == line
    decreases fuel, 0
  {
    var k := FindFrom(call, "(", 0);
    var ident := call[..k];
    var params := call[k..];
    if Lexer.ParenNet(call) != 0 then Err(line, "brackets opened but never closed")
    else if ident !in tables.functions then Err(line, "function " + ident + "() not in scope")
    else
      var fn := tables.functions[ident];
      var inner := if |params| > 2 then params[1..|params| - 1] else params;
      var args := Scanners.SplitArgs(inner);
      if |args| != |fn.paramsOrder| then Err(line, "function " + ident + " takes a different number of arguments")
      else if fuel == 0 then Err(line, TooDeep)
      else
        var checked :- CheckArguments(args, fn.paramsOrder, fn, 0, 0, 0, tables, fuel - 1, line);
        assert fn.parameters[0..] == fn.parameters;
        Ok(FunctionCall(ident, checked.exprs, checked.arrays, checked.tuples, fn.paramsOrder))
  }

  /** The argument loop of a call.  `vc`, `ac` and `tc` count the
      primitive, array and tuple parameters already matched. */
  function CheckArguments(args: seq<string>, order: seq<ParamKind>, fn: Function, vc: nat, ac: nat, tc: nat,
                          tables: Tables, fuel: nat, line: int): (r: Result<CallArgs>)
    requires |args| == |order| && vc <= |fn.parameters|
    ensures r.Ok? ==> |r.value.exprs| == CountKind(order, VariableParameter)
    ensures r.Ok? ==> ArgumentsFit(r.value.exprs, fn.parameters[vc..])
    ensures r.Ok? ==> |r.value.arrays| == CountKind(order, ArrayParameter)
    ensures r.Ok? ==> |r.value.tuples| == CountKind(order, TupleParameter)
    ensures r.Err? ==> r.line == line
    decreases fuel, 2, |args|
  {
    if |args| == 0 then Ok(CallArgs([], [], []))
    else
      var a := args[0];
      match order[0]
      case VariableParameter =>
        var e :- ParseExpression(a, tables, fuel, line);
        if vc >= |fn.parameters| then Err(line, "index out of range")
        else if e.dataType != fn.parameters[vc].dataType then
          Err(line, "cannot use expression of this type as argument")
        else
          var rest :- CheckArguments(args[1..], order[1..], fn, vc + 1, ac, tc, tables, fuel, line);
          assert fn.parameters[vc..][1..] == fn.parameters[vc + 1..];
          Ok(CallArgs([e] + rest.exprs, rest.arrays, rest.tuples))
      case ArrayParameter =>
        var t := Trim(a);
        if |t| == 0 then Err(line, "index out of range")
        else if t[0] == '[' then Err(line, "cannot use array literal as function parameter")
        else if ac >= |fn.arrays| then Err(line, "index out of range")
        else
          var expected := fn.arrays[ac].dataType;
          var ae :- ParseArrayExpression(a, expected.baseType, tables, fuel, line);
          if ae.dataType.baseType != expected.baseType then
            Err(line, "expression does not have same base type as array parameter")
          else if |ae.dataType.dimensions| != |expected.dimensions| then
            Err(line, "expression does not have same number of dimensions as array parameter")
          else if ae.dataType.dimensions != expected.dimensions then
            Err(line, "expression does not have same dimension size as array parameter")
          else
            var rest :- CheckArguments(args[1..], order[1..], fn, vc, ac + 1, tc, tables, fuel, line);
            Ok(CallArgs(rest.exprs, [ae.dataType] + rest.arrays, rest.tuples))
      case TupleParameter =>
        var t := Trim(a);
        if |t| == 0 then Err(line, "index out of range")
        else if t[0] == '(' then Err(line, "cannot use tuple literal as function parameter")
        else if tc >= |fn.tuples| then Err(line, "index out of range")
        else
          var expected := fn.tuples[tc].pattern;
          var te :- ParseTupleExpression(a, expected, tables, fuel, line);
          var rest :- CheckArguments(args[1..], order[1..], fn, vc, ac, tc + 1, tables, fuel, line);
          Ok(CallArgs(rest.exprs, rest.arrays, [expected] + rest.tuples))
  }

  /** Parses each text as an expression. */
  function ParseEach(ss: seq<string>, tables: Tables, fuel: nat, line: int): (r: Result<seq<Expression>>)
    ensures r.Ok? ==> |r.value| == |ss|
    ensures r.Ok? ==> forall i :: 0 <= i < |ss| ==> Lexer.Tokenize(ss[i], line) == Ok(r.value[i].items)
    ensures r.Err? ==> r.line == line
    decreases fuel, 2, |ss|
  {
    if |ss| == 0 then Ok([])
    else
      var e :- ParseExpression(ss[0], tables, fuel, line);
      var rest :- ParseEach(ss[1..], tables, fuel, line);
      Ok([e] + rest)
  }

  // ---------------------------------------------------------------------
  // Arrays

  /** The first index at or after `i` holding '[' or ']', or `|s|`. */
  function FirstSquare(s: string, i: nat): (k: nat)
    requires i <= |s|
    ensures i <= k <= |s|
    ensures k < |s| ==> s[k] == '[' || s[k] == ']'
    ensures forall m :: i <= m < k ==> s[m] != '[' && s[m] != ']'
    decreases |s| - i
  {
    if i == |s| || s[i] == '[' || s[i] == ']' then i else FirstSquare(s, i + 1)
  }

  /** Checks an access `a[i]`: one word, `a` an array in scope, exactly
      one index group whose expression is an Int.  The bound check on the
      index runs only when the index text does not convert to an integer;
      a constant index is not checked against the size. */
  function ParseArrayIndexing(indexing: string, tables: Tables, fuel: nat, line: int): (r: Result<ArrayIndexing>)
    ensures r.Ok? ==> r.value.arrayId in tables.arrays
    ensures r.Ok? ==> r.value.dataType == tables.arrays[r.value.arrayId].dataType
    ensures r.Ok? ==> r.value.index.dataType == Int
    ensures r.Ok? ==> |Fields(Trim(indexing))| <= 1
    ensures r.Err? ==> r.line == line
    decreases fuel, 0
  {
    var t := Trim(indexing);
    if |Fields(t)| > 1 then Err(line, "array indexing cannot contain a space")
    else
      var k := FirstSquare(t, 0);
      if k < |t| && t[k] == ']' then Err(line, "found closing bracket ] before opening bracket [ in array indexing")
      else
        var sbi := if k < |t| then k else 0;
        var id := t[..sbi];
        if id !in tables.arrays then Err(line, "attempt to index array " + id + " that is not in scope")
        else
          var arr := tables.arrays[id];
          var groups :- Scanners.IndexGroupsFrom(t[sbi..], false, "", line);
          if fuel == 0 then Err(line, TooDeep)
          else
            var dims :- ParseEach(groups, tables, fuel - 1, line);
            if !AllOfType(dims, Int) then Err(line, "attempt to index arrays with expression evaluating to non-integer type")
            else if |dims| > 1 then Err(line, "multi-dimensional array indexing is not currently supported")
            else if |dims| == 0 then Err(line, "array indexing with no value")
            else
              var num := Atoi(Join(dims[0].items, " "));
              if !num.ok && |arr.dataType.dimensions| == 0 then Err(line, "index out of range")
              else if !num.ok && num.n > arr.dataType.dimensions[0] - 1 then
                Err(line, "attempt to index element beyond the array's size")
              else Ok(ArrayIndexing(id, arr.dataType, dims[0]))
  }

  /** Checks an array literal `[a, b]` against an element type.  `[]` has
      no elements; otherwise every element read must have exactly the
      expected type, and the length is the number of elements. */
  function ParseBaseArray(arrayValue: string, expected: PrimType, tables: Tables, fuel: nat, line: int)
    : (r: Result<BaseArray>)
    ensures r.Ok? ==> |arrayValue| >= 2 && arrayValue[0] == '[' && arrayValue[|arrayValue| - 1] == ']'
    ensures r.Ok? ==> r.value.dataType == expected && AllOfType(r.value.values, expected)
    ensures r.Ok? ==> r.value.length == |r.value.values|
    ensures r.Ok? && |arrayValue| > 2 ==>
      |r.value.values| == |Scanners.ElementsFrom(arrayValue[1..], false, "")|
    ensures r.Err? ==> r.line == line
    decreases fuel, 0
  {
    if |arrayValue| < 2 then Err(line, "length of array value cannot be less than two")
    else if arrayValue[0] != '[' || arrayValue[|arrayValue| - 1] != ']' then
      Err(line, "array value is not opened and closed with square brackets")
    else if |arrayValue| == 2 then Ok(BaseArray([], expected, 0))
    else
      var elements := Scanners.ElementsFrom(arrayValue[1..], false, "");
      if fuel == 0 then Err(line, TooDeep)
      else
        var values :- ParseEach(elements, tables, fuel - 1, line);
        if !AllOfType(values, expected) then Err(line, "found element of the wrong type in array")
        else Ok(BaseArray(values, expected, |values|))
  }

  /** An array-valued expression: a literal, an array in scope, or a call
      of a function that returns an array. */
  function ParseArrayExpression(expr: string, expected: PrimType, tables: Tables, fuel: nat, line: int)
    : (r: Result<ArrayExpression>)
    ensures r.Ok? ==> r.value.stringValue == expr && |Trim(expr)| > 0
    ensures r.Ok? && Trim(expr)[0] == '[' ==>
      r.value.dataType.baseType == expected && |r.value.dataType.dimensions| == 1 && r.value.dataType.dimensions[0] >= 0
    ensures r.Ok? && Trim(expr)[0] != '[' && Trim(expr) in tables.arrays ==>
      r.value.dataType == tables.arrays[Trim(expr)].dataType
    ensures r.Ok? && Trim(expr)[0] != '[' && Trim(expr) !in tables.arrays ==>
      var name := expr[..FindFrom(expr, "(", 0)];
      name in tables.functions && tables.functions[name].returnDomain == Derived
      && r.value.dataType == tables.functions[name].derivedReturnType
    ensures r.Err? ==> r.line == line
    decreases fuel, 0
  {
    var t := Trim(expr);
    if |t| == 0 then Err(line, "index out of range")
    else if t[0] == '[' then
      if fuel == 0 then Err(line, TooDeep)
      else
        var b :- ParseBaseArray(expr, expected, tables, fuel - 1, line);
        Ok(ArrayExpression(expr, ArrayType([b.length], b.dataType)))
    else if t in tables.arrays then Ok(ArrayExpression(expr, tables.arrays[t].dataType))
    else
      var name := expr[..FindFrom(expr, "(", 0)];
      if name in tables.functions && tables.functions[name].returnDomain == Derived then
        Ok(ArrayExpression(expr, tables.functions[name].derivedReturnType))
      else Err(line, "invalid array expression")
  }

  // ---------------------------------------------------------------------
  // Tuples

  /** Checks a tuple literal `(a, b)` against a pattern: the elements are
      parsed, then matched by arity and by type. */
  function ParseTupleLiteral(tupleValue: string, pattern: TuplePattern, tables: Tables, fuel: nat, line: int)
    : (r: Result<seq<Expression>>)
    ensures r.Ok? ==> var t := Trim(tupleValue); |t| >= 2 && t[0] == '(' && t[|t| - 1] == ')'
    ensures r.Ok? ==> |r.value| == |pattern.dataTypes|
    ensures r.Ok? ==> forall i :: 0 <= i < |r.value| ==> r.value[i].dataType == pattern.dataTypes[i]
    ensures r.Err? ==> r.line == line
    decreases fuel, 0
  {
    var t := Trim(tupleValue);
    if |t| == 0 then Err(line, "index out of range")
    else if !(t[0] == '(' && t[|t| - 1] == ')') then
      Err(line, "tuple is invalid because it is not enclosed by brackets ()")
    else
      var elements := Scanners.TupleElementsFrom(t[1..|t| - 1], false, "");
      if fuel == 0 then Err(line, TooDeep)
      else
        var values :- ParseEach(elements, tables, fuel - 1, line);
        var matched :- TuplePatterns.MatchTuplePattern(values, pattern, line);
        Ok(values)
  }

  /** A tuple-valued expression: a literal checked against the pattern, a
      call of a function that returns a tuple, or a tuple in scope.  Only
      the literal is matched against the pattern. */
  function ParseTupleExpression(expr: string, pattern: TuplePattern, tables: Tables, fuel: nat, line: int)
    : (r: Result<TupleExpression>)
    ensures r.Ok? ==> |Trim(expr)| > 0
    ensures r.Ok? && Trim(expr)[0] == '(' ==> r.value.TupleLiteral?
    ensures r.Ok? && r.value.TupleLiteral? ==>
      |r.value.values| == |pattern.dataTypes|
      && forall i :: 0 <= i < |r.value.values| ==> r.value.values[i].dataType == pattern.dataTypes[i]
    ensures r.Ok? && r.value.TupleCall? ==> r.value.call.functionName in tables.functions
    ensures r.Ok? && r.value.TupleVariable? ==>
      var ws := Fields(Trim(expr)); |ws| == 1 && ws[0] in tables.tuples && r.value.t == tables.tuples[ws[0]]
    ensures r.Err? ==> r.line == line
    decreases fuel, 0
  {
    var t := Trim(expr);
    if |t| == 0 then Err(line, "tuple expression is empty")
    else if t[0] == '(' then
      if fuel == 0 then Err(line, TooDeep)
      else
        var values :- ParseTupleLiteral(expr, pattern, tables, fuel - 1, line);
        Ok(TupleLiteral(values))
    else
      var name := Trim(expr[..FindFrom(expr, "(", 0)]);
      if name in tables.functions && tables.functions[name].returnDomain == TupleReturn then
        if fuel == 0 then Err(line, TooDeep)
        else
          var call :- ParseFunctionCall(t, tables, fuel - 1, line);
          Ok(TupleCall(call))
      else
        var ws := Fields(t);
        if |ws| != 1 then Err(line, "invalid tuple expression")
        else if ws[0] !in tables.tuples then Err(line, "tuple " + ws[0] + " not found in scope")
        else Ok(TupleVariable(tables.tuples[ws[0]]))
  }

  /** Checks a tuple index `t.1`: the text before the first '.' names a
      tuple in scope and the trimmed text after it converts to an integer.
      The index is not compared with the tuple's arity. */
  function ParseTupleIndexing(indexing: string, tables: Tables, line: int): (r: Result<TupleIndexing>)
    ensures r.Ok? ==> var k := FindFrom(indexing, ".", 0);
      k < |indexing| && indexing[..k] in tables.tuples && r.value.t == tables.tuples[indexing[..k]]
      && Atoi(Trim(indexing[k + 1..])) == Parsed(r.value.i, true)
    ensures FindFrom(indexing, ".", 0) == |indexing| ==> r.Err?
    ensures r.Err? ==> r.line == line
  {
    var k := FindFrom(indexing, ".", 0);
    if k == |indexing| then Err(line, "no index operator '.' found in tuple indexing")
    else
      var id := indexing[..k];
      if id !in tables.tuples then Err(line, "tuple indexed " + id + " not in current scope")
      else
        var n := Atoi(Trim(indexing[k + 1..]));
        if !n.ok then Err(line, "tuple index is invalid because it is not an integer literal")
        else Ok(TupleIndexing(tables.tuples[id], n.n))
  }
}
