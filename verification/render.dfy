/** The Go text the parsed items are written as (src/transpiler/transpiler.go).
    Each renderer builds its line by appending pieces, as the source does;
    the contracts relate the text to the item: the words a reader of the
    line sees, the pieces a split on the separator gives back, and what
    the text of a whole scope is made of.
 */
module Render {
  import opened Types
  import opened Symbols
  import opened Items
  import opened GoText
  import opened Results

  /** The Go name of a primitive type: `float` becomes `float64`, the
      others keep their Stella names. */
  function GoType(t: PrimType): (r: string)
    ensures |r| > 0 && NoSpace(r) && !HasChar(r, ',')
    ensures t != Float ==> r == TypeName(t)
  {
    if t != Float then TypeName(t) else TypeName(t) + "64"
  }

  /** Distinct types get distinct Go names. */
  lemma GoTypeInjective(a: PrimType, b: PrimType)
    ensures GoType(a) == GoType(b) <==> a == b
  {
  }

  /** `x` is the end of `s`. */
  predicate EndsWith(s: string, x: string) {
    |x| <= |s| && s[|s| - |x|..] == x
  }

  /** A word without white space, followed by a space, is read as that
      word and then the words of the rest. */
  lemma WordFirst(w: string, y: string)
    requires |w| > 0 && NoSpace(w)
    ensures Fields(w + " " + y) == [w] + Fields(y)
  {
    FieldsSpace(w, y);
    FieldsOfWord(w);
  }

  /** A leading space adds no word. */
  lemma BlankFirst(y: string)
    ensures Fields(" " + y) == Fields(y)
  {
    FieldsSpace("", y);
    assert "" + " " + y == " " + y;
  }

  /** `fmt.Sprintf("%d", n)`. */
  function IntText(n: int): (r: string)
    ensures |r| > 0 && NoSpace(r) && !HasChar(r, ',')
    ensures n >= 0 ==> AllDigits(r) && DigitsValue(r) == n
    ensures n < 0 ==> r[0] == '-' && AllDigits(r[1..]) && DigitsValue(r[1..]) == -n
  {
    var d := Itoa(if n < 0 then -n else n);
    assert forall i :: 0 <= i < |d| ==> !IsSpace(d[i]) && d[i] != ',' by {
      forall i | 0 <= i < |d| ensures !IsSpace(d[i]) && d[i] != ',' {
        assert IsDigit(d[i]);
      }
    }
    if n < 0 then
      var r := "-" + d;
      assert r[1..] == d;
      assert forall i :: 0 <= i < |r| ==> !IsSpace(r[i]) && r[i] != ',' by {
        forall i | 0 <= i < |r| ensures !IsSpace(r[i]) && r[i] != ',' {
          if i > 0 { assert r[i] == d[i - 1]; }
        }
      }
      r
    else d
  }

  // ---------------------------------------------------------------------
  // Expressions

  /** The tokens, each followed by a space, as the source's loop builds
      them before it drops the last character. */
  function Spaced(items: seq<string>): string {
    if |items| == 0 then "" else items[0] + " " + Spaced(items[1..])
  }

  /** The tokens written with single spaces between them, and nothing for
      no tokens. */
  function RenderExpression(e: Expression): (r: string)
    ensures r == Join(e.items, " ")
  {
    var s := Spaced(e.items);
    if |s| != 0 then
      SpacedIsJoin(e.items);
      s[..|s| - 1]
    else
      assert |e.items| == 0;
      s
  }

  lemma {:induction false} SpacedIsJoin(items: seq<string>)
    requires |items| > 0
    ensures Spaced(items) == Join(items, " ") + " "
    decreases |items|
  {
    if |items| > 1 {
      SpacedIsJoin(items[1..]);
    }
  }

  /** A token-by-token reader of the text gets the tokens back, as long as
      no token is empty or holds white space (a string literal with a
      space in it is read as several words). */
  lemma ExpressionWords(e: Expression)
    requires forall i :: 0 <= i < |e.items| ==> |e.items[i]| > 0 && NoSpace(e.items[i])
    ensures Fields(RenderExpression(e)) == e.items
  {
    FieldsJoin(e.items);
  }

  /** Splitting the text on single spaces gives the tokens back when none
      of them contains a space. */
  lemma ExpressionSplits(e: Expression)
    requires |e.items| > 0
    requires forall i :: 0 <= i < |e.items| ==> !HasChar(e.items[i], ' ')
    ensures Split(RenderExpression(e), " ") == e.items
  {
    SplitJoin(e.items, " ");
  }

  // ---------------------------------------------------------------------
  // Declarations and assignments

  /** `var <id> <type>  = <expr>`, with the two spaces the source writes
      before the equals sign. */
  function RenderDeclaration(v: Variable, e: Expression): (r: string)
    ensures ("var " + v.identifier + " ") <= r && EndsWith(r, RenderExpression(e))
    ensures ("var " + v.identifier + " " + GoType(v.dataType) + "  = ") <= r
    ensures |r| == |"var " + v.identifier + " " + GoType(v.dataType) + "  = "| + |RenderExpression(e)|
  {
    var named := "var " + v.identifier + " ";
    var head := named + GoType(v.dataType) + "  = ";
    var t := head + RenderExpression(e);
    assert t[..|head|] == head && head[..|named|] == named;
    assert t[|head|..] == RenderExpression(e);
    t
  }

  /** `let a: int = 0` is written `var a int  = 0`, with two spaces before
      the equals sign. */
  lemma DeclarationExample()
    ensures RenderDeclaration(Variable("a", Int, false), Expression(["0"], Int)) == "var a int  = 0"
  {
    var r := RenderDeclaration(Variable("a", Int, false), Expression(["0"], Int));
    assert RenderExpression(Expression(["0"], Int)) == "0";
    assert |r| == 14;
    assert r[..13] == "var a int  = ";
    assert r[13..] == "0";
    assert r == r[..13] + r[13..];
  }

  /** Read word by word, a declaration is `var`, the name, the Go type, `=`
      and the expression's tokens. */
  lemma DeclarationWords(v: Variable, e: Expression)
    requires |v.identifier| > 0 && NoSpace(v.identifier)
    requires forall i :: 0 <= i < |e.items| ==> |e.items[i]| > 0 && NoSpace(e.items[i])
    ensures Fields(RenderDeclaration(v, e)) == ["var", v.identifier, GoType(v.dataType), "="] + e.items
  {
    DeclarationShape(v.identifier, GoType(v.dataType), RenderExpression(e));
    ExpressionWords(e);
    assert NoSpace("var") && NoSpace("=");
    ThreeWordsBlank("var", v.identifier, GoType(v.dataType), "=", RenderExpression(e));
  }

  /** Three words, a doubled space, a fourth word, a space and the rest. */
  lemma ThreeWordsBlank(a: string, b: string, c: string, d: string, y: string)
    requires |a| > 0 && NoSpace(a) && |b| > 0 && NoSpace(b) && |c| > 0 && NoSpace(c) && |d| > 0 && NoSpace(d)
    ensures Fields(a + " " + (b + " " + (c + " " + (" " + (d + " " + y))))) == [a, b, c, d] + Fields(y)
  {
    WordFirst(d, y);
    BlankFirst(d + " " + y);
    WordFirst(c, " " + (d + " " + y));
    WordFirst(b, c + " " + (" " + (d + " " + y)));
    WordFirst(a, b + " " + (c + " " + (" " + (d + " " + y))));
  }

  lemma DeclarationShape(id: string, t: string, x: string)
    ensures "var " + id + " " + t + "  = " + x == "var" + " " + (id + " " + (t + " " + (" " + ("=" + " " + x))))
  {
  }

  /** `<id> = <expr>`. */
  function RenderAssignment(v: Variable, e: Expression): (r: string)
    ensures (v.identifier + " = ") <= r && EndsWith(r, RenderExpression(e))
  {
    var t := v.identifier + " = " + RenderExpression(e);
    assert t[|t| - |RenderExpression(e)|..] == RenderExpression(e);
    t
  }

  /** Read word by word, an assignment is the name, `=` and the
      expression's tokens. */
  lemma AssignmentWords(v: Variable, e: Expression)
    requires |v.identifier| > 0 && NoSpace(v.identifier)
    requires forall i :: 0 <= i < |e.items| ==> |e.items[i]| > 0 && NoSpace(e.items[i])
    ensures Fields(RenderAssignment(v, e)) == [v.identifier, "="] + e.items
  {
    var x := RenderExpression(e);
    var s1 := "=" + " " + x;
    assert RenderAssignment(v, e) == v.identifier + " " + s1;
    ExpressionWords(e);
    WordFirst("=", x);
    WordFirst(v.identifier, s1);
  }

  /** `<id> = <value>` for an array; the text of the array value comes
      from a renderer that is not part of this model. */
  function RenderArrayAssignment(arr: Array, value: string): (r: string)
    ensures (arr.identifier + " = ") <= r && EndsWith(r, value)
  {
    var t := arr.identifier + " = " + value;
    assert t[|t| - |value|..] == value;
    t
  }

  /** `var <id> [<size>]<type> = <value>`, where the size is the first
      dimension.  An array type with no dimension makes the source index
      out of range, which is a panic. */
  function RenderArrayDeclaration(arr: Array, value: string): (r: Option<string>)
    ensures r.Some? <==> |arr.dataType.dimensions| > 0
  {
    if |arr.dataType.dimensions| == 0 then None
    else
      Some("var " + arr.identifier + " " + "[" + IntText(arr.dataType.dimensions[0]) + "]"
           + GoType(arr.dataType.baseType) + " = " + value)
  }

  /** Read word by word, an array declaration is `var`, the name, the
      sized Go type as one word, `=` and the words of the value. */
  lemma ArrayDeclarationWords(arr: Array, value: string)
    requires |arr.identifier| > 0 && NoSpace(arr.identifier) && |arr.dataType.dimensions| > 0
    ensures Fields(RenderArrayDeclaration(arr, value).value)
      == ["var", arr.identifier, "[" + IntText(arr.dataType.dimensions[0]) + "]" + GoType(arr.dataType.baseType), "="]
         + Fields(value)
  {
    var size := IntText(arr.dataType.dimensions[0]);
    var ty := "[" + size + "]" + GoType(arr.dataType.baseType);
    ArrayDeclarationShape(arr.identifier, size, GoType(arr.dataType.baseType), value);
    SizedTypeWord(size, GoType(arr.dataType.baseType));
    assert NoSpace("var") && NoSpace("=");
    FourWords("var", arr.identifier, ty, "=", value);
  }

  /** Four words, each followed by a space, and then the rest. */
  lemma FourWords(a: string, b: string, c: string, d: string, y: string)
    requires |a| > 0 && NoSpace(a) && |b| > 0 && NoSpace(b) && |c| > 0 && NoSpace(c) && |d| > 0 && NoSpace(d)
    ensures Fields(a + " " + (b + " " + (c + " " + (d + " " + y)))) == [a, b, c, d] + Fields(y)
  {
    WordFirst(d, y);
    WordFirst(c, d + " " + y);
    WordFirst(b, c + " " + (d + " " + y));
    WordFirst(a, b + " " + (c + " " + (d + " " + y)));
  }

  lemma ArrayDeclarationShape(id: string, size: string, t: string, value: string)
    ensures "var " + id + " " + "[" + size + "]" + t + " = " + value
      == "var" + " " + (id + " " + (("[" + size + "]" + t) + " " + ("=" + " " + value)))
  {
  }

  lemma SizedTypeWord(size: string, t: string)
    requires NoSpace(size) && NoSpace(t)
    ensures NoSpace("[" + size + "]" + t)
  {
    var w := "[" + size + "]" + t;
    forall i | 0 <= i < |w| ensures !IsSpace(w[i]) {
      if 1 <= i <= |size| {
        assert w[i] == size[i - 1];
      } else if i > |size| + 1 {
        assert w[i] == t[i - |size| - 2];
      }
    }
  }

  // ---------------------------------------------------------------------
  // Array values

  /** A one-dimensional array value: its elements, base type and length. */
  datatype ArrayValue = ArrayValue(elements: seq<Expression>, baseType: PrimType, length: int)

  /** The elements from index `i` on, each followed by `, ` except the
      last, as the source's loop writes them. */
  function ElementList(elements: seq<Expression>, i: nat): string
    requires i <= |elements|
    decreases |elements| - i
  {
    if i == |elements| then ""
    else RenderExpression(elements[i]) + (if i != |elements| - 1 then ", " else "") + ElementList(elements, i + 1)
  }

  /** The text of each element. */
  function ElementTexts(elements: seq<Expression>): (r: seq<string>)
    ensures |r| == |elements|
    ensures forall i :: 0 <= i < |r| ==> r[i] == RenderExpression(elements[i])
  {
    seq(|elements|, i requires 0 <= i < |elements| => RenderExpression(elements[i]))
  }

  lemma {:induction false} ElementListIsJoin(elements: seq<Expression>, i: nat)
    requires i <= |elements|
    ensures ElementList(elements, i) == Join(ElementTexts(elements)[i..], ", ")
    decreases |elements| - i
  {
    var texts := ElementTexts(elements);
    if i < |elements| {
      ElementListIsJoin(elements, i + 1);
      assert texts[i..][0] == texts[i];
      assert texts[i..][1..] == texts[i + 1..];
      if i == |elements| - 1 {
        assert texts[i + 1..] == [];
      }
    }
  }

  /** `[<length>]<type>{e1, e2, ...}`: the element texts joined by `, `. */
  function RenderArrayValue(a: ArrayValue): (r: string)
    ensures r == "[" + IntText(a.length) + "]" + GoType(a.baseType) + "{" + Join(ElementTexts(a.elements), ", ") + "}"
  {
    ElementListIsJoin(a.elements, 0);
    assert ElementTexts(a.elements)[0..] == ElementTexts(a.elements);
    "[" + IntText(a.length) + "]" + GoType(a.baseType) + "{" + ElementList(a.elements, 0) + "}"
  }

  /** The text between the braces splits on `, ` into the element texts
      when no element's text has a comma, so each element is written once
      and in order. */
  lemma ArrayValueElements(a: ArrayValue)
    requires |a.elements| > 0
    requires forall i :: 0 <= i < |a.elements| ==> !HasChar(RenderExpression(a.elements[i]), ',')
    ensures Split(Join(ElementTexts(a.elements), ", "), ", ") == ElementTexts(a.elements)
  {
    SplitJoin(ElementTexts(a.elements), ", ");
  }

  // ---------------------------------------------------------------------
  // Functions

  /** `<id> <type>` for one primitive parameter. */
  function RenderParameter(p: Variable): (r: string)
    ensures (p.identifier + " ") <= r && EndsWith(r, GoType(p.dataType))
  {
    var t := p.identifier + " " + GoType(p.dataType);
    assert t[|t| - |GoType(p.dataType)|..] == GoType(p.dataType);
    t
  }

  function ParameterTexts(ps: seq<Variable>): (r: seq<string>)
    ensures |r| == |ps|
    ensures forall i :: 0 <= i < |r| ==> r[i] == RenderParameter(ps[i])
  {
    seq(|ps|, i requires 0 <= i < |ps| => RenderParameter(ps[i]))
  }

  /** The function header as the source writes it: the primitive
      parameters one after another with nothing between them. */
  function RenderFunctionAsWritten(f: Function): (r: string)
    ensures r == FunctionHeader(f.identifier, Concat(ParameterTexts(f.parameters)), f.returnType)
  {
    ParameterListIsConcat(f.parameters, 0);
    assert ParameterTexts(f.parameters)[0..] == ParameterTexts(f.parameters);
    FunctionHeader(f.identifier, ParameterList(f.parameters, 0), f.returnType)
  }

  /** `func <id>(<params>) <type> {`. */
  function FunctionHeader(id: string, params: string, returnType: PrimType): string {
    "func " + id + "(" + params + ") " + GoType(returnType) + " {"
  }

  /** Two headers of the same name and return type are equal exactly when
      their parameter texts are. */
  lemma HeaderInjective(id: string, a: string, b: string, t: PrimType)
    ensures FunctionHeader(id, a, t) == FunctionHeader(id, b, t) <==> a == b
  {
    if FunctionHeader(id, a, t) == FunctionHeader(id, b, t) {
      var n := |"func " + id + "("|;
      assert |a| == |b|;
      assert a == FunctionHeader(id, a, t)[n..n + |a|];
      assert b == FunctionHeader(id, b, t)[n..n + |b|];
    }
  }

  /** The source's parameter loop from index `i` on. */
  function ParameterList(ps: seq<Variable>, i: nat): string
    requires i <= |ps|
    decreases |ps| - i
  {
    if i == |ps| then "" else RenderParameter(ps[i]) + ParameterList(ps, i + 1)
  }

  lemma {:induction false} ParameterListIsConcat(ps: seq<Variable>, i: nat)
    requires i <= |ps|
    ensures ParameterList(ps, i) == Concat(ParameterTexts(ps)[i..])
    decreases |ps| - i
  {
    if i < |ps| {
      ParameterListIsConcat(ps, i + 1);
      assert ParameterTexts(ps)[i..][1..] == ParameterTexts(ps)[i + 1..];
    }
  }

  /** The function header with `, ` between parameters, as Go needs. */
  function RenderFunction(f: Function): (r: string)
    ensures ("func " + f.identifier + "(") <= r && EndsWith(r, ") " + GoType(f.returnType) + " {")
  {
    var tail := ") " + GoType(f.returnType) + " {";
    var t := FunctionHeader(f.identifier, Join(ParameterTexts(f.parameters), ", "), f.returnType);
    assert t[|t| - |tail|..] == tail;
    t
  }

  /** With `, ` between parameters the list splits back into the
      parameters, in order, when no parameter name holds a comma. */
  lemma FunctionParameters(f: Function)
    requires |f.parameters| > 0
    requires forall i :: 0 <= i < |f.parameters| ==> !HasChar(f.parameters[i].identifier, ',')
    ensures Split(Join(ParameterTexts(f.parameters), ", "), ", ") == ParameterTexts(f.parameters)
  {
    var texts := ParameterTexts(f.parameters);
    forall i | 0 <= i < |texts| ensures !HasChar(texts[i], ',') {
      NoCommaConcat(f.parameters[i].identifier + " ", GoType(f.parameters[i].dataType));
      NoCommaConcat(f.parameters[i].identifier, " ");
    }
    SplitJoin(texts, ", ");
  }

  lemma NoCommaConcat(a: string, b: string)
    requires !HasChar(a, ',') && !HasChar(b, ',')
    ensures !HasChar(a + b, ',')
  {
  }

  lemma {:induction false} JoinLength(ws: seq<string>, sep: string)
    requires |ws| > 0
    ensures |Join(ws, sep)| == |Concat(ws)| + (|ws| - 1) * |sep|
    decreases |ws|
  {
    if |ws| > 1 {
      JoinLength(ws[1..], sep);
    }
  }

  /** The header as written is the Go header exactly when the function has
      at most one primitive parameter; from two on, the parameters run
      together. */
  lemma AsWrittenAgrees(f: Function)
    ensures RenderFunctionAsWritten(f) == RenderFunction(f) <==> |f.parameters| <= 1
  {
    var texts := ParameterTexts(f.parameters);
    HeaderInjective(f.identifier, Concat(texts), Join(texts, ", "), f.returnType);
    ConcatIsJoin(texts);
  }

  /** Writing texts one after another is joining them with `, ` exactly
      when there are at most one of them. */
  lemma ConcatIsJoin(texts: seq<string>)
    ensures Concat(texts) == Join(texts, ", ") <==> |texts| <= 1
  {
    if |texts| == 1 {
      assert texts[1..] == [];
      assert Concat(texts) == texts[0] + Concat([]);
    } else if |texts| > 1 {
      JoinLength(texts, ", ");
    }
  }

  /** A function `f` of two integer parameters `a` and `b`, returning an integer. */
  const TwoParameters: Function :=
    Function([Variable("a", Int, false), Variable("b", Int, false)], [], [],
             [VariableParameter, VariableParameter], "f", TuplePattern([]), ArrayType([], Int), Int, Primitive)

  /** As written, the two parameters come out as `a intb int`. */
  lemma ParametersRunTogether()
    ensures RenderFunctionAsWritten(TwoParameters) == "func f(a intb int) int {"
  {
    TwoParameterTexts();
  }

  /** Corrected, they come out as `a int, b int`. */
  lemma ParametersSeparated()
    ensures RenderFunction(TwoParameters) == "func f(a int, b int) int {"
  {
    TwoParameterTexts();
  }

  lemma TwoParameterTexts()
    ensures Concat(ParameterTexts(TwoParameters.parameters)) == "a intb int"
    ensures Join(ParameterTexts(TwoParameters.parameters), ", ") == "a int, b int"
  {
    var texts := ParameterTexts(TwoParameters.parameters);
    assert texts[0] == "a int" && texts[1] == "b int";
    TwoTexts(texts);
  }

  lemma TwoTexts(texts: seq<string>)
    requires |texts| == 2
    ensures Concat(texts) == texts[0] + texts[1]
    ensures Join(texts, ", ") == texts[0] + ", " + texts[1]
  {
    assert texts[1..][1..] == [];
    assert Concat(texts[1..]) == texts[1] + "";
    assert texts[1] + "" == texts[1];
  }

  // ---------------------------------------------------------------------
  // Selections and scopes

  /** The text before a condition. */
  function SelectionPrefix(s: SelectionType): string {
    match s
    case If => "if "
    case ElseIf => "} else if "
    case Else => "} else "
  }

  /** The words of each prefix. */
  function SelectionKeywords(s: SelectionType): seq<string> {
    match s
    case If => ["if"]
    case ElseIf => ["}", "else", "if"]
    case Else => ["}", "else"]
  }

  /** `if <cond> {`, `} else if <cond> {` or `} else <cond> {`.  An `else`
      has no condition tokens, so it is written `} else  {`. */
  function RenderSelection(s: SelectionType, e: Expression): (r: string)
    ensures SelectionPrefix(s) <= r && EndsWith(r, " {")
  {
    var t := SelectionPrefix(s) + RenderExpression(e) + " " + "{";
    assert t[|t| - 2..] == " {";
    t
  }

  /** Read word by word, a selection is its keywords, the condition's
      tokens and the opening brace. */
  lemma SelectionWords(s: SelectionType, e: Expression)
    requires forall i :: 0 <= i < |e.items| ==> |e.items[i]| > 0 && NoSpace(e.items[i])
    ensures Fields(RenderSelection(s, e)) == SelectionKeywords(s) + e.items + ["{"]
  {
    SelectionShape(s, RenderExpression(e));
    ExpressionWords(e);
    KeywordsThenWord(SelectionKeywords(s), RenderExpression(e), "{");
  }

  /** Words joined by spaces, a space, a text, a space and one more word. */
  lemma KeywordsThenWord(kws: seq<string>, x: string, w: string)
    requires forall i :: 0 <= i < |kws| ==> |kws[i]| > 0 && NoSpace(kws[i])
    requires |w| > 0 && NoSpace(w)
    ensures Fields(Join(kws, " ") + " " + (x + " " + w)) == kws + Fields(x) + [w]
  {
    var a, b := Join(kws, " "), x + " " + w;
    calc {
      Fields(a + " " + b);
      { FieldsSpace(a, b); }
      Fields(a) + Fields(b);
      { FieldsJoin(kws); FieldsSpace(x, w); FieldsOfWord(w); }
      kws + (Fields(x) + [w]);
      kws + Fields(x) + [w];
    }
  }

  lemma SelectionShape(s: SelectionType, x: string)
    ensures SelectionPrefix(s) + x + " " + "{" == Join(SelectionKeywords(s), " ") + " " + (x + " " + "{")
  {
    match s
    case If =>
    case ElseIf =>
      assert Join(["}", "else", "if"], " ") == "}" + " " + ("else" + " " + "if");
    case Else =>
      assert Join(["}", "else"], " ") == "}" + " " + "else";
  }

  /** The kinds of item whose text this model writes itself: primitive
      declarations and assignments, function headers, returned
      expressions, selections, scope closers and nested scopes. */
  predicate WrittenHere(item: Item) {
    item.Declaration? || item.FunctionDeclaration? || item.Assignment? || item.Returned?
    || item.Selection? || item.ScopeCloser? || item.Nested?
  }

  /** The line an item becomes, without its newline.  A returned value is
      prefixed with `return `.  Items whose renderers are not part of this
      model are written by `other`. */
  function RenderItem(item: Item, other: Item -> string): (r: string)
    ensures item.Declaration? ==> ("var " + item.v.identifier + " ") <= r && EndsWith(r, RenderExpression(item.e))
    ensures item.FunctionDeclaration? ==> ("func " + item.f.identifier + "(") <= r
    ensures item.Assignment? ==> (item.v.identifier + " = ") <= r && EndsWith(r, RenderExpression(item.e))
    ensures item.Returned? ==> "return " <= r && EndsWith(r, RenderExpression(item.e))
    ensures item.Selection? ==> SelectionPrefix(item.selectionType) <= r && EndsWith(r, " {")
    ensures item.ScopeCloser? ==> r == item.closer
    ensures item.Nested? && |item.scope.items| > 0 ==> |r| > 0 && r[|r| - 1] == '\n'
    ensures !WrittenHere(item) ==> r == other(item)
    decreases item, 0
  {
    match item
    case Declaration(v, e) => RenderDeclaration(v, e)
    case FunctionDeclaration(f) => RenderFunction(f)
    case Assignment(v, e) => RenderAssignment(v, e)
    case Returned(e) =>
      var t := "return " + RenderExpression(e);
      assert t[|t| - |RenderExpression(e)|..] == RenderExpression(e);
      t
    case Selection(s, e) => RenderSelection(s, e)
    case ScopeCloser(closer) => closer
    case Nested(scope) => RenderItems(scope.items, other)
    case _ => other(item)
  }

  /** A scope's items, each followed by a newline. */
  function RenderItems(items: seq<Item>, other: Item -> string): (r: string)
    ensures |items| > 0 ==> |r| > 0 && r[|r| - 1] == '\n'
    decreases items, 1
  {
    if |items| == 0 then ""
    else
      var rest := RenderItems(items[1..], other);
      var t := RenderItem(items[0], other) + "\n" + rest;
      assert |rest| > 0 ==> t[|t| - 1] == rest[|rest| - 1];
      t
  }

  function RenderScope(s: Scope, other: Item -> string): (r: string)
    ensures |s.items| > 0 ==> |r| > 0 && r[|r| - 1] == '\n'
  {
    RenderItems(s.items, other)
  }

  /** The text of a scope is the text of its parts, one after the other. */
  lemma {:induction false} RenderItemsAppend(a: seq<Item>, b: seq<Item>, other: Item -> string)
    ensures RenderItems(a + b, other) == RenderItems(a, other) + RenderItems(b, other)
    decreases |a|
  {
    if |a| == 0 {
      assert a + b == b;
    } else {
      assert (a + b)[0] == a[0];
      assert (a + b)[1..] == a[1..] + b;
      RenderItemsAppend(a[1..], b, other);
    }
  }

  /** The lines of a scope's items, without their newlines. */
  function ItemLines(items: seq<Item>, other: Item -> string): (r: seq<string>)
    ensures |r| == |items|
    ensures forall i :: 0 <= i < |r| ==> r[i] == RenderItem(items[i], other)
  {
    seq(|items|, i requires 0 <= i < |items| => RenderItem(items[i], other))
  }

  /** When no item's line holds a newline, splitting the scope's text on
      newlines gives one line per item, in order, and an empty last piece. */
  lemma {:induction false} ScopeLines(items: seq<Item>, other: Item -> string)
    requires forall i :: 0 <= i < |items| ==> !HasChar(RenderItem(items[i], other), '\n')
    ensures Split(RenderItems(items, other), "\n") == ItemLines(items, other) + [""]
    decreases |items|
  {
    var lines := ItemLines(items, other) + [""];
    ItemsAreJoin(items, other);
    forall i | 0 <= i < |lines| ensures !HasChar(lines[i], "\n"[0]) {
      if i == |lines| - 1 {
        assert lines[i] == "";
      }
    }
    SplitJoin(lines, "\n");
  }

  lemma {:induction false} ItemsAreJoin(items: seq<Item>, other: Item -> string)
    ensures RenderItems(items, other) == Join(ItemLines(items, other) + [""], "\n")
    decreases |items|
  {
    var lines := ItemLines(items, other);
    if |items| == 0 {
      assert lines + [""] == [""];
    } else {
      ItemsAreJoin(items[1..], other);
      assert ItemLines(items[1..], other) == lines[1..];
      assert (lines + [""])[1..] == lines[1..] + [""];
      assert (lines + [""])[0] == RenderItem(items[0], other);
    }
  }

  /** The text of an item this model writes itself does not depend on how
      the other kinds are written, unless it is a nested scope. */
  lemma OwnTextIgnoresOther(item: Item, other: Item -> string, other': Item -> string)
    requires WrittenHere(item) && !item.Nested?
    ensures RenderItem(item, other) == RenderItem(item, other')
  {
  }
}
