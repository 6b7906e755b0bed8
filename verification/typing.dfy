/** The typing rules of Stella expressions, stated on their own, and the
    lemmas that tie the expression checker (src/transpiler/types.go and
    parser.go) to them.

    An operand is a variable in scope or a literal; a binary operator
    combines the types of its two operands as `BinaryRule` says.
 */
module Typing {
  import opened Results
  import opened Tokens
  import opened GoText
  import opened Types
  import opened Symbols
  import Lexer
  import Terms
  import Expressions

  /** The type of a literal: a quoted string, a quoted byte, `true` or
      `false`, a decimal with one point, or an integer without leading
      zeros. */
  function LiteralType(x: string): Option<PrimType> {
    if IsStringLiteral(x) then Some(String)
    else if IsByteLiteral(x) then Some(Byte)
    else if IsBoolLiteral(x) then Some(Bool)
    else if IsFloatLiteral(x) then Some(Float)
    else if IsIntLiteral(x) then Some(Int)
    else None
  }

  /** The type of one operand token: a variable's declared type, else the
      type of the literal it spells. */
  function OperandType(tables: Tables, x: string): Option<PrimType> {
    if x in tables.vars then Some(tables.vars[x].dataType) else LiteralType(x)
  }

  /** The result type of `a op b`.  `+` joins two strings or two numbers
      of one type; `*` and `/` take two numbers of one type; `-` takes any
      two numbers and has the type of the right one; `&&` and `||` take two
      booleans; a comparison takes two operands of one type and is a
      boolean. */
  function BinaryRule(op: string, a: PrimType, b: PrimType): Option<PrimType> {
    if op == "+" then
      if a == String && b == String then Some(String)
      else if IsNumeric(a) && a == b then Some(a)
      else None
    else if op == "-" then
      if IsNumeric(a) && IsNumeric(b) then Some(b) else None
    else if op == "*" || op == "/" then
      if IsNumeric(a) && a == b then Some(a) else None
    else if op in BooleanOperators then
      if a == Bool && b == Bool then Some(Bool) else None
    else if op in ComparativeOperators then
      if a == b then Some(Bool) else None
    else None
  }

  /** The rule applied to two operands that may not have a type. */
  function Combine(op: string, a: Option<PrimType>, b: Option<PrimType>): Option<PrimType> {
    if a.Some? && b.Some? then BinaryRule(op, a.value, b.value) else None
  }

  /** The checker's answer as an optional type. */
  function Typed(r: Result<PrimType>): Option<PrimType> {
    if r.Ok? then Some(r.value) else None
  }

  /** An operator's step of the type checker adds exactly the type `c`,
      or fails when there is none. */
  predicate Adds(r: Result<set<PrimType>>, c: Option<PrimType>) {
    (c.Some? ==> r == Ok({c.value})) && (c.None? ==> r.Err?)
  }

  /** A token that the type checker reads as one operand: not an
      operator or a bracket, and with no call or index syntax. */
  predicate Atom(x: string) {
    |x| > 0 && !IsOperator(x) && !Lexer.IsBracketToken(x) && !HasChar(x, '(') && !HasChar(x, '[')
  }

  /** The literal checker agrees with the literal types. */
  lemma LiteralTypeAgrees(x: string, line: int)
    ensures Typed(GetValType(x, line)) == LiteralType(x)
  {
    var r := GetValType(x, line);
    if r.Ok? {
      match r.value
      case Int => case Float => case Bool => case Byte => case String =>
      case IO => assert false;
    }
  }

  /** A single operand is typed by `OperandType`. */
  lemma SingleOperand(tables: Tables, x: string, fuel: nat, line: int)
    requires Atom(x)
    ensures Typed(Expressions.ExpressionType([x], tables, fuel, line)) == OperandType(tables, x)
  {
    assert Terms.StripOuter([x], line) == Ok([x]);
    LiteralTypeAgrees(x, line);
  }

  /** A binary operator between two operands, anywhere in a token list,
      adds the type `BinaryRule` gives, or fails when there is none. */
  lemma OperatorOnOperands(tables: Tables, e: seq<string>, j: nat, fuel: nat, line: int)
    requires 0 < j < |e| - 1 && IsBinary(e[j]) && Atom(e[j - 1]) && Atom(e[j + 1])
    ensures Adds(Expressions.OperatorResult(e, j, tables, fuel, line),
                 Combine(e[j], OperandType(tables, e[j - 1]), OperandType(tables, e[j + 1])))
  {
    var op, x, y := e[j], e[j - 1], e[j + 1];
    assert e[j - 1..j] == [x];
    assert e[j + 1..j + 2] == [y];
    assert Terms.PreviousTerm(e, j, line) == Ok(Terms.Span(j - 1, j));
    assert Terms.NextTerm(e, j, line) == Ok(Terms.Span(j + 1, j + 2));
    SingleOperand(tables, x, fuel, line);
    SingleOperand(tables, y, fuel, line);
    assert !IsBinary(x) && op != "!";
    var pt := Expressions.ExpressionType([x], tables, fuel, line);
    var nt := Expressions.ExpressionType([y], tables, fuel, line);
    if pt.Ok? && nt.Ok? {
      BinaryStep(op, pt.value, nt.value, line);
    }
  }

  /** The operand check of a binary operator agrees with `BinaryRule`. */
  lemma BinaryStep(op: string, a: PrimType, b: PrimType, line: int)
    requires IsBinary(op)
    ensures BinaryRule(op, a, b).Some? ==> Expressions.BinaryTypes(op, a, b, line) == Ok({BinaryRule(op, a, b).value})
    ensures BinaryRule(op, a, b).None? ==> Expressions.BinaryTypes(op, a, b, line).Err?
  {
    if op == "-" || op == "+" || op == "*" || op == "/" {
      NumericStep(op, a, b, line);
    } else if op == "&&" || op == "||" {
      BooleanStep(op, a, b, line);
    } else {
      assert op in ComparativeOperators;
      ComparisonStep(op, a, b, line);
    }
  }

  lemma NumericStep(op: string, a: PrimType, b: PrimType, line: int)
    requires op == "-" || op == "+" || op == "*" || op == "/"
    ensures BinaryRule(op, a, b).Some? ==> Expressions.BinaryTypes(op, a, b, line) == Ok({BinaryRule(op, a, b).value})
    ensures BinaryRule(op, a, b).None? ==> Expressions.BinaryTypes(op, a, b, line).Err?
  {
  }

  lemma BooleanStep(op: string, a: PrimType, b: PrimType, line: int)
    requires op == "&&" || op == "||"
    ensures BinaryRule(op, a, b).Some? ==> Expressions.BinaryTypes(op, a, b, line) == Ok({BinaryRule(op, a, b).value})
    ensures BinaryRule(op, a, b).None? ==> Expressions.BinaryTypes(op, a, b, line).Err?
  {
    assert op !in ComparativeOperators;
  }

  lemma ComparisonStep(op: string, a: PrimType, b: PrimType, line: int)
    requires op in ComparativeOperators
    ensures BinaryRule(op, a, b).Some? ==> Expressions.BinaryTypes(op, a, b, line) == Ok({BinaryRule(op, a, b).value})
    ensures BinaryRule(op, a, b).None? ==> Expressions.BinaryTypes(op, a, b, line).Err?
  {
    assert op != "-" && op != "+" && op != "*" && op != "/" && op != "&&" && op != "||";
  }

  /** The type of an expression of three or more tokens that is not
      wrapped in one bracket pair: the one type its operators add. */
  function CollectedType(r: Result<set<PrimType>>): Option<PrimType> {
    if r.Ok? && |r.value| == 1 then Some(Expressions.OnlyType(r.value)) else None
  }

  lemma LongExpression(e: seq<string>, tables: Tables, fuel: nat, line: int)
    requires |e| >= 3 && !Terms.IsPair(e[0], e[|e| - 1]) && fuel >= 1
    ensures Typed(Expressions.ExpressionType(e, tables, fuel, line))
         == CollectedType(Expressions.CollectTypes(e, -1, {}, tables, fuel - 1, line))
  {
    assert Terms.StripOuter(e, line) == Ok(e);
  }

  /** One round of the operator loop: the next operator's result is
      added, or its failure ends the loop. */
  lemma CollectStep(e: seq<string>, prev: int, j: nat, found: set<PrimType>, tables: Tables, fuel: nat, line: int)
    requires -1 <= prev < |e| && Terms.NextOperator(e, prev) == Some(j)
    ensures Expressions.OperatorResult(e, j, tables, fuel, line).Err? ==>
      Expressions.CollectTypes(e, prev, found, tables, fuel, line).Err?
    ensures Expressions.OperatorResult(e, j, tables, fuel, line).Ok? ==>
      Expressions.CollectTypes(e, prev, found, tables, fuel, line)
      == Expressions.CollectTypes(e, j, found + Expressions.OperatorResult(e, j, tables, fuel, line).value, tables, fuel, line)
  {
  }

  /** The operator loop ends when no operator is left. */
  lemma CollectEnd(e: seq<string>, prev: int, found: set<PrimType>, tables: Tables, fuel: nat, line: int)
    requires -1 <= prev < |e| && Terms.NextOperator(e, prev) == None
    ensures Expressions.CollectTypes(e, prev, found, tables, fuel, line) == Ok(found)
  {
  }

  /** A binary expression of two operands is typed by `BinaryRule`, and
      any other middle token leaves it without a type. */
  lemma BinaryExpressionType(tables: Tables, x: string, op: string, y: string, fuel: nat, line: int)
    requires Atom(x) && Atom(y) && fuel >= 1
    ensures Typed(Expressions.ExpressionType([x, op, y], tables, fuel, line))
         == Combine(op, OperandType(tables, x), OperandType(tables, y))
  {
    var e := [x, op, y];
    LongExpression(e, tables, fuel, line);
    MiddleCollected(tables, e, fuel - 1, line);
  }

  /** The operator loop over three tokens with operands at both ends. */
  lemma MiddleCollected(tables: Tables, e: seq<string>, fuel: nat, line: int)
    requires |e| == 3 && Atom(e[0]) && Atom(e[2])
    ensures CollectedType(Expressions.CollectTypes(e, -1, {}, tables, fuel, line))
         == Combine(e[1], OperandType(tables, e[0]), OperandType(tables, e[2]))
  {
    if IsOperator(e[1]) {
      OperatorInMiddle(tables, e, fuel, line);
    } else {
      Terms.NoOperatorLeft(e, -1);
      CollectEnd(e, -1, {}, tables, fuel, line);
      NoRuleOutsideOperators(e[1]);
    }
  }

  /** Only operators have a typing rule. */
  lemma NoRuleOutsideOperators(op: string)
    requires !IsOperator(op)
    ensures forall a, b :: BinaryRule(op, a, b).None?
  {
    assert op !in ComparativeOperators && op !in BooleanOperators;
  }

  /** The operator loop over `x op y` when `op` is an operator. */
  lemma OperatorInMiddle(tables: Tables, e: seq<string>, fuel: nat, line: int)
    requires |e| == 3 && Atom(e[0]) && Atom(e[2]) && IsOperator(e[1])
    ensures CollectedType(Expressions.CollectTypes(e, -1, {}, tables, fuel, line))
         == Combine(e[1], OperandType(tables, e[0]), OperandType(tables, e[2]))
  {
    Terms.OperatorAfterOperand(e, -1);
    Terms.NoOperatorLeft(e, 1);
    var added := Expressions.OperatorResult(e, 1, tables, fuel, line);
    if IsBinary(e[1]) {
      OperatorOnOperands(tables, e, 1, fuel, line);
    } else {
      assert e[1] == "!";
      UnaryInMiddle(tables, e, fuel, line);
    }
    CollectStep(e, -1, 1, {}, tables, fuel, line);
    if added.Ok? {
      CollectEnd(e, 1, {} + added.value, tables, fuel, line);
    }
  }

  /** A `!` between two operands adds no type. */
  lemma UnaryInMiddle(tables: Tables, e: seq<string>, fuel: nat, line: int)
    requires |e| == 3 && e[1] == "!" && Atom(e[0]) && Atom(e[2])
    ensures Expressions.OperatorResult(e, 1, tables, fuel, line).Ok? ==>
      Expressions.OperatorResult(e, 1, tables, fuel, line).value == {}
  {
    assert Terms.NextTerm(e, 1, line) == Ok(Terms.Span(2, 3));
  }

  /** Two binary operators in a row have no precedence: each is checked
      against the operands right next to it, and the expression has a
      type only when both give the same one. */
  lemma TwoOperators(tables: Tables, x: string, op1: string, y: string, op2: string, z: string, fuel: nat, line: int)
    requires Atom(x) && Atom(y) && Atom(z) && IsBinary(op1) && IsBinary(op2) && fuel >= 1
    ensures var c1 := Combine(op1, OperandType(tables, x), OperandType(tables, y));
      var c2 := Combine(op2, OperandType(tables, y), OperandType(tables, z));
      Typed(Expressions.ExpressionType([x, op1, y, op2, z], tables, fuel, line))
      == if c1.Some? && c1 == c2 then c1 else None
  {
    TwoOperatorsIn(tables, [x, op1, y, op2, z], fuel, line);
  }

  /** `TwoOperators` for any five tokens of that shape. */
  lemma TwoOperatorsIn(tables: Tables, e: seq<string>, fuel: nat, line: int)
    requires |e| == 5 && Atom(e[0]) && Atom(e[2]) && Atom(e[4]) && IsBinary(e[1]) && IsBinary(e[3]) && fuel >= 1
    ensures var c1 := Combine(e[1], OperandType(tables, e[0]), OperandType(tables, e[2]));
      var c2 := Combine(e[3], OperandType(tables, e[2]), OperandType(tables, e[4]));
      Typed(Expressions.ExpressionType(e, tables, fuel, line)) == if c1.Some? && c1 == c2 then c1 else None
  {
    AtomNotPair(e[0], e[4]);
    LongExpression(e, tables, fuel, line);
    TwoCollected(tables, e, fuel - 1, line);
  }

  /** An operand never opens a bracket pair. */
  lemma AtomNotPair(a: string, b: string)
    requires Atom(a)
    ensures !Terms.IsPair(a, b)
  {
  }

  /** The operator loop over two binary operators between operands. */
  lemma TwoCollected(tables: Tables, e: seq<string>, fuel: nat, line: int)
    requires |e| == 5 && Atom(e[0]) && Atom(e[2]) && Atom(e[4]) && IsBinary(e[1]) && IsBinary(e[3])
    ensures var c1 := Combine(e[1], OperandType(tables, e[0]), OperandType(tables, e[2]));
      var c2 := Combine(e[3], OperandType(tables, e[2]), OperandType(tables, e[4]));
      CollectedType(Expressions.CollectTypes(e, -1, {}, tables, fuel, line)) == if c1.Some? && c1 == c2 then c1 else None
  {
    var c1 := Combine(e[1], OperandType(tables, e[0]), OperandType(tables, e[2]));
    var c2 := Combine(e[3], OperandType(tables, e[2]), OperandType(tables, e[4]));
    OperatorOnOperands(tables, e, 1, fuel, line);
    OperatorOnOperands(tables, e, 3, fuel, line);
    TwoFound(tables, e, c1, c2, fuel, line);
  }

  /** `TwoOperators` once each operator's contribution is known. */
  lemma TwoFound(tables: Tables, e: seq<string>, c1: Option<PrimType>, c2: Option<PrimType>, fuel: nat, line: int)
    requires |e| == 5 && Atom(e[0]) && Atom(e[2]) && Atom(e[4]) && IsBinary(e[1]) && IsBinary(e[3])
    requires Adds(Expressions.OperatorResult(e, 1, tables, fuel, line), c1)
    requires Adds(Expressions.OperatorResult(e, 3, tables, fuel, line), c2)
    ensures CollectedType(Expressions.CollectTypes(e, -1, {}, tables, fuel, line))
         == if c1.Some? && c1 == c2 then c1 else None
  {
    CollectTwo(e, tables, fuel, line);
    var found := Expressions.CollectTypes(e, -1, {}, tables, fuel, line);
    if c1.Some? && c2.Some? {
      assert found == Ok({c1.value} + {c2.value});
      TwoTypes(c1.value, c2.value);
    } else {
      assert found.Err?;
    }
  }

  /** The operator loop over `x op1 y op2 z` collects what both operators
      add. */
  lemma CollectTwo(e: seq<string>, tables: Tables, fuel: nat, line: int)
    requires |e| == 5 && Atom(e[0]) && Atom(e[2]) && Atom(e[4]) && IsBinary(e[1]) && IsBinary(e[3])
    ensures var a1 := Expressions.OperatorResult(e, 1, tables, fuel, line);
      var a2 := Expressions.OperatorResult(e, 3, tables, fuel, line);
      a1.Ok? && a2.Ok? ==> Expressions.CollectTypes(e, -1, {}, tables, fuel, line) == Ok(a1.value + a2.value)
    ensures var a1 := Expressions.OperatorResult(e, 1, tables, fuel, line);
      var a2 := Expressions.OperatorResult(e, 3, tables, fuel, line);
      !(a1.Ok? && a2.Ok?) ==> Expressions.CollectTypes(e, -1, {}, tables, fuel, line).Err?
  {
    Terms.OperatorAfterOperand(e, -1);
    Terms.OperatorAfterOperand(e, 1);
    Terms.NoOperatorLeft(e, 3);
    var a1 := Expressions.OperatorResult(e, 1, tables, fuel, line);
    var a2 := Expressions.OperatorResult(e, 3, tables, fuel, line);
    CollectStep(e, -1, 1, {}, tables, fuel, line);
    if a1.Ok? {
      CollectStep(e, 1, 3, {} + a1.value, tables, fuel, line);
      if a2.Ok? {
        CollectEnd(e, 3, {} + a1.value + a2.value, tables, fuel, line);
        assert {} + a1.value + a2.value == a1.value + a2.value;
      }
    }
  }

  /** Two one-type sets join to a one-type set exactly when the types are
      equal. */
  lemma TwoTypes(t1: PrimType, t2: PrimType)
    ensures |{t1} + {t2}| == 1 <==> t1 == t2
    ensures t1 == t2 ==> Expressions.OnlyType({t1} + {t2}) == t1
  {
    if t1 != t2 {
      assert |{t1, t2}| == 2;
      assert {t1} + {t2} == {t1, t2};
    } else {
      assert {t1} + {t2} == {t1};
    }
  }

  /** Rejected although each part is well typed: `1 + 1 == 2` collects
      the type of `+` and the type of `==` and finds two. */
  lemma MixedOperatorsRejected(tables: Tables, fuel: nat, line: int)
    requires fuel >= 1 && "1" !in tables.vars && "2" !in tables.vars
    ensures Expressions.ExpressionType(["1", "+", "1", "==", "2"], tables, fuel, line).Err?
  {
    IntOperands(tables);
    TwoOperators(tables, "1", "+", "1", "==", "2", fuel, line);
  }

  lemma IntOperands(tables: Tables)
    requires "1" !in tables.vars && "2" !in tables.vars
    ensures OperandType(tables, "1") == Some(Int) && OperandType(tables, "2") == Some(Int)
  {
    assert IsIntLiteral("1") && IsIntLiteral("2");
  }

  /** An operand as written in source text: a plain word or a string
      literal that the checker reads as one value, either a name or
      literal, or a token starting with a digit that is not a variable. */
  predicate OperandWord(tables: Tables, x: string) {
    (Lexer.IsWord(x) || Lexer.IsQuoted(x)) && Atom(x)
    && (Expressions.PlainValue(x) || (IsDigitChar(x[0]) && x !in tables.vars))
  }

  /** Between an operator or an end on either side, an operand word is
      accepted exactly when it has a type. */
  lemma CheckOperand(tables: Tables, x: string, prev: string, next: string, fuel: nat, line: int)
    requires OperandWord(tables, x)
    requires Expressions.ValuePrevOk(prev) && Expressions.ValueNextOk(next)
    ensures Expressions.CheckValue(x, prev, next, tables, fuel, line).Ok? <==> OperandType(tables, x).Some?
  {
    LiteralTypeAgrees(x, line);
  }

  /** The adjacency checks pass on `x op y` exactly when both operands
      have a type. */
  lemma CheckThree(tables: Tables, x: string, op: string, y: string, fuel: nat, line: int)
    requires OperandWord(tables, x) && OperandWord(tables, y) && IsBinary(op)
    ensures Expressions.CheckTokens([x, op, y], 0, tables, fuel, line).Ok?
        <==> OperandType(tables, x).Some? && OperandType(tables, y).Some?
  {
    var e := [x, op, y];
    CheckOperand(tables, x, "", op, fuel, line);
    CheckOperand(tables, y, op, "", fuel, line);
    CheckFirst(e, tables, fuel, line);
    CheckMiddle(e, tables, fuel, line);
    CheckLast(e, tables, fuel, line);
  }

  /** The first of three tokens is checked as a value before the rest. */
  lemma CheckFirst(e: seq<string>, tables: Tables, fuel: nat, line: int)
    requires |e| == 3 && Atom(e[0])
    ensures Expressions.CheckTokens(e, 0, tables, fuel, line).Ok?
        <==> Expressions.CheckValue(e[0], "", e[1], tables, fuel, line).Ok?
             && Expressions.CheckTokens(e, 1, tables, fuel, line).Ok?
  {
    assert Expressions.Before(e, 0) == "" && Expressions.After(e, 0) == e[1];
  }

  /** A binary operator between two operands checks both of them. */
  lemma CheckMiddle(e: seq<string>, tables: Tables, fuel: nat, line: int)
    requires |e| == 3 && Atom(e[0]) && IsBinary(e[1]) && Atom(e[2])
    ensures Expressions.CheckTokens(e, 1, tables, fuel, line).Ok?
        <==> Expressions.CheckValue(e[0], "", e[1], tables, fuel, line).Ok?
             && Expressions.CheckValue(e[2], e[1], "", tables, fuel, line).Ok?
             && Expressions.CheckTokens(e, 2, tables, fuel, line).Ok?
  {
    assert Expressions.Before(e, 1) == e[0] && Expressions.After(e, 1) == e[2];
    assert !IsBinary(e[0]) && !IsUnary(e[2]);
  }

  /** The last of three tokens is checked as a value after the operator. */
  lemma CheckLast(e: seq<string>, tables: Tables, fuel: nat, line: int)
    requires |e| == 3 && Atom(e[2]) && IsBinary(e[1])
    ensures Expressions.CheckTokens(e, 2, tables, fuel, line) == Expressions.CheckValue(e[2], e[1], "", tables, fuel, line)
  {
    assert Expressions.Before(e, 2) == e[1] && Expressions.After(e, 2) == "";
    assert Expressions.CheckTokens(e, 3, tables, fuel, line) == Ok(());
  }

  /** The text `x op y` parses to its three tokens, typed by
      `BinaryRule`; when the rule gives no type it is rejected. */
  lemma BinaryExpressionParses(tables: Tables, x: string, op: string, y: string, fuel: nat, line: int)
    requires OperandWord(tables, x) && OperandWord(tables, y) && IsBinary(op) && fuel >= 2
    ensures var c := Combine(op, OperandType(tables, x), OperandType(tables, y));
      var r := Expressions.ParseExpression(Join([x, op, y], " "), tables, fuel, line);
      (c.Some? ==> r == Ok(Expression([x, op, y], c.value))) && (c.None? ==> r.Err?)
  {
    ThreeTokensRead(x, op, y, line);
    BinaryTextParses(Join([x, op, y], " "), tables, x, op, y, fuel, line);
  }

  /** `BinaryExpressionParses` for any text that tokenises to `x op y`. */
  lemma BinaryTextParses(expr: string, tables: Tables, x: string, op: string, y: string, fuel: nat, line: int)
    requires OperandWord(tables, x) && OperandWord(tables, y) && IsBinary(op) && fuel >= 2
    requires Lexer.Tokenize(expr, line) == Ok([x, op, y])
    ensures var c := Combine(op, OperandType(tables, x), OperandType(tables, y));
      var r := Expressions.ParseExpression(expr, tables, fuel, line);
      (c.Some? ==> r == Ok(Expression([x, op, y], c.value))) && (c.None? ==> r.Err?)
  {
    ThreeAccepted(tables, x, op, y, fuel - 1, line);
    ParseThrough(expr, [x, op, y], tables, fuel, line);
  }

  /** The tokens `x op y` pass both checks exactly when `BinaryRule`
      gives them a type, and then they have that type. */
  lemma ThreeAccepted(tables: Tables, x: string, op: string, y: string, fuel: nat, line: int)
    requires OperandWord(tables, x) && OperandWord(tables, y) && IsBinary(op) && fuel >= 1
    ensures var c := Combine(op, OperandType(tables, x), OperandType(tables, y));
      var k := Expressions.CheckTokens([x, op, y], 0, tables, fuel, line);
      var t := Expressions.ExpressionType([x, op, y], tables, fuel, line);
      (c.Some? ==> k.Ok? && t == Ok(c.value)) && (c.None? ==> !(k.Ok? && t.Ok?))
  {
    CheckThree(tables, x, op, y, fuel, line);
    BinaryExpressionType(tables, x, op, y, fuel, line);
  }

  /** Parsing text that tokenises to `toks` succeeds exactly when the
      adjacency checks and the type checker both accept `toks`. */
  lemma ParseThrough(expr: string, toks: seq<string>, tables: Tables, fuel: nat, line: int)
    requires fuel >= 1 && Lexer.Tokenize(expr, line) == Ok(toks)
    ensures var c := Expressions.CheckTokens(toks, 0, tables, fuel - 1, line);
      var t := Expressions.ExpressionType(toks, tables, fuel - 1, line);
      var r := Expressions.ParseExpression(expr, tables, fuel, line);
      (c.Ok? && t.Ok? ==> r == Ok(Expression(toks, t.value))) && (!(c.Ok? && t.Ok?) ==> r.Err?)
  {
  }

  /** The tokeniser reads `x op y` back as its three tokens. */
  lemma ThreeTokensRead(x: string, op: string, y: string, line: int)
    requires Lexer.IsWord(x) || Lexer.IsQuoted(x)
    requires Lexer.IsWord(y) || Lexer.IsQuoted(y)
    requires IsBinary(op)
    ensures Lexer.Tokenize(Join([x, op, y], " "), line) == Ok([x, op, y])
  {
    var e := [x, op, y];
    if Lexer.IsWord(x) { Lexer.WordHasNoBracket(x); }
    if Lexer.IsWord(y) { Lexer.WordHasNoBracket(y); }
    assert Lexer.BracketValue(op) == 0;
    assert Lexer.BracketValue(x) == 0 && Lexer.BracketValue(y) == 0;
    assert [x][..0] == [];
    assert Lexer.BracketNet([x]) == 0;
    assert [x, op][..1] == [x];
    assert Lexer.BracketNet([x, op]) == 0;
    assert e[..2] == [x, op];
    assert Lexer.BracketNet(e) == 0;
    Lexer.TokenizeJoin(e, line);
  }

  /** `1.5 - 1` is an Int: binary `-` takes the type of its right operand. */
  lemma SubtractionTakesRightType(tables: Tables, fuel: nat, line: int)
    requires fuel >= 1 && "1.5" !in tables.vars && "1" !in tables.vars
    ensures Expressions.ExpressionType(["1.5", "-", "1"], tables, fuel, line) == Ok(Int)
  {
    assert IsFloatLiteral("1.5") by {
      assert "1.5"[1] == '.';
      assert "1.5"[..1] == "1" && "1.5"[2..] == "5";
    }
    assert IsIntLiteral("1");
    assert LiteralType("1.5") == Some(Float);
    BinaryExpressionType(tables, "1.5", "-", "1", fuel, line);
  }
}
