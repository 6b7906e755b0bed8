/** The one-line statements over primitive values: variable declarations
    and assignments, `if` / `else if` / `else` headers
    (src/transpiler/parser.go), loop headers (src/transpiler/loop.go) and
    macro calls (src/transpiler/macro.go).  Each checks its line against
    the scope's tables and returns the parsed item with the tables after it.
 */
module Statements {
  import opened Results
  import opened GoText
  import opened Types
  import opened Symbols
  import opened Items
  import Identifiers
  import LineKinds
  import Expressions

  /** Where the text after the first '=' of a line starts, or 0 when the
      line has no '='. */
  function AfterEquals(line: string): (k: nat)
    ensures k <= |line|
    ensures k > 0 ==> line[k - 1] == '=' && forall j :: 0 <= j < k - 1 ==> line[j] != '='
    ensures k == 0 ==> forall j :: 0 <= j < |line| ==> line[j] != '='
  {
    var i := FindFrom(line, "=", 0);
    if i == |line| then
      assert forall j :: 0 <= j < |line| ==> line[j] != '=' by {
        forall j | 0 <= j < |line| ensures line[j] != '=' {
          assert !OccursAt(line, "=", j);
          assert line[j..j + 1][0] == line[j];
        }
      }
      0
    else
      assert line[i..i + 1][0] == line[i];
      assert forall j :: 0 <= j < i ==> line[j] != '=' by {
        forall j | 0 <= j < i ensures line[j] != '=' {
          assert !OccursAt(line, "=", j);
          assert line[j..j + 1][0] == line[j];
        }
      }
      i + 1
  }

  /** The index of the first '=' of a line, or 0 when it has none. */
  function EqualsIndex(line: string): (k: nat)
    ensures k < |line| || k == 0
    ensures k > 0 || (|line| > 0 && line[0] == '=') ==> line[k] == '='
  {
    var a := AfterEquals(line);
    if a > 0 then a - 1 else 0
  }

  /** The text a declaration's expression is read from: everything after
      the first '=', or after the first character when there is none. */
  function DeclaredText(line: string): string {
    if |line| == 0 then "" else line[EqualsIndex(line) + 1..]
  }

  // ---------------------------------------------------------------------
  // Variables

  /** Reads `let [mut] name: type = expression`.  The name must be new to
      all four tables, the type must not be IO, and the expression must
      have the annotated type; the variable is then recorded. */
  function ParseVariableDeclaration(line: string, tables: Tables, illegal: set<string>, fuel: nat, lineNum: int)
    : (r: Result<Step>)
    ensures r.Ok? ==> r.value.item.Declaration?
    ensures r.Ok? ==> var v := r.value.item.v; var ws := Fields(line);
      |ws| >= 2 && ws[0] == "let" && LineKinds.TypeIndex(ws) + 1 < |ws|
      && ws[LineKinds.TypeIndex(ws) - 1] == v.identifier + ":"
      && ws[LineKinds.TypeIndex(ws)] == TypeName(v.dataType)
      && ws[LineKinds.TypeIndex(ws) + 1] == "="
      && (v.mut <==> ws[1] == "mut")
    ensures r.Ok? ==> var v := r.value.item.v;
      !Declared(tables, v.identifier) && v.identifier !in illegal && v.dataType != IO
      && r.value.item.e.dataType == v.dataType
      && Expressions.ParseExpression(DeclaredText(line), tables, fuel, lineNum) == Ok(r.value.item.e)
    ensures r.Ok? ==> r.value.tables == tables.(vars := tables.vars[r.value.item.v.identifier := r.value.item.v])
    ensures r.Err? ==> r.line == lineNum
  {
    var words := Fields(line);
    if |words| == 0 || words[0] != "let" then Err(lineNum, "variable assignment without let keyword")
    else if |words| < 2 || LineKinds.TypeIndex(words) - 1 >= |words| then Err(lineNum, "index out of range")
    else
      var ti := LineKinds.TypeIndex(words);
      var id :- Identifiers.ParseIdentifier(words[ti - 1], illegal, lineNum);
      if Declared(tables, id) then Err(lineNum, id + " already defined in this scope")
      else if ti >= |words| then Err(lineNum, "index out of range")
      else
        var expected :- ReadType(words[ti], lineNum);
        if expected == IO then Err(lineNum, "variables cannot have data type IO")
        else if ti + 1 >= |words| then Err(lineNum, "index out of range")
        else if words[ti + 1] != "=" then Err(lineNum, "expected token '=' after type annotation")
        else
          var e :- Expressions.ParseExpression(DeclaredText(line), tables, fuel, lineNum);
          if e.dataType != expected then Err(lineNum, "expression type differs from the type annotation")
          else
            var v := Variable(id, expected, words[1] == "mut");
            Ok(Step(Declaration(v, e), tables.(vars := tables.vars[id := v])))
  }

  /** A declaration cannot be repeated: once it succeeds, the same line
      read against the tables it produced is rejected, because its name is
      now taken. */
  lemma DeclarationNotRepeatable(line: string, tables: Tables, illegal: set<string>, fuel: nat, lineNum: int)
    requires ParseVariableDeclaration(line, tables, illegal, fuel, lineNum).Ok?
    ensures ParseVariableDeclaration(line, ParseVariableDeclaration(line, tables, illegal, fuel, lineNum).value.tables,
                                     illegal, fuel, lineNum).Err?
  {
  }

  /** Reads `name = expression` for a variable.  The variable must be in
      scope and mutable, and the expression must have its type; the tables
      do not change. */
  function ParseAssignment(line: string, tables: Tables, fuel: nat, lineNum: int): (r: Result<Step>)
    ensures var ws := Fields(line);
      r.Ok? ==> (|ws| >= 3 && ws[0] in tables.vars && tables.vars[ws[0]].mut && ws[1] == "="
        && r.value.item.Assignment? && r.value.item.v == tables.vars[ws[0]]
        && r.value.item.e.dataType == tables.vars[ws[0]].dataType
        && Expressions.ParseExpression(line[AfterEquals(line)..], tables, fuel, lineNum) == Ok(r.value.item.e))
    ensures var ws := Fields(line);
      |ws| > 0 && ws[0] in tables.vars && !tables.vars[ws[0]].mut ==> r.Err?
    ensures r.Ok? ==> r.value.tables == tables
    ensures r.Err? ==> r.line == lineNum
  {
    var words := Fields(line);
    if |words| < 3 then Err(lineNum, "invalid assignment")
    else if words[0] !in tables.vars then
      Err(lineNum, "first token of assignment does not match any variables in current scope")
    else
      var v := tables.vars[words[0]];
      if !v.mut then Err(lineNum, "attempt to assign new value to immutable variable " + v.identifier)
      else if words[1] != "=" then Err(lineNum, "invalid assignment: equals sign must come directly after variable")
      else
        var start := AfterEquals(line);
        if start == 0 || start == |line| - 1 then Err(lineNum, "found no expression in assignment")
        else
          var e :- Expressions.ParseExpression(line[start..], tables, fuel, lineNum);
          if e.dataType != v.dataType then Err(lineNum, "cannot assign an expression of another type")
          else Ok(Step(Assignment(v, e), tables))
  }

  /** A variable declared without `mut` can never be assigned to, whatever
      the assignment line says. */
  lemma ImmutableNotAssignable(decl: string, tables: Tables, illegal: set<string>, assign: string,
                               fuel: nat, lineNum: int, lineNum': int)
    requires ParseVariableDeclaration(decl, tables, illegal, fuel, lineNum).Ok?
    requires Fields(decl)[1] != "mut"
    requires var v := ParseVariableDeclaration(decl, tables, illegal, fuel, lineNum).value.item.v;
      |Fields(assign)| > 0 && Fields(assign)[0] == v.identifier
    ensures ParseAssignment(assign, ParseVariableDeclaration(decl, tables, illegal, fuel, lineNum).value.tables,
                            fuel, lineNum').Err?
  {
  }

  // ---------------------------------------------------------------------
  // Selection

  /** Where the condition of an `if` / `else if` / `else` line starts: after
      the last place where the word read so far is `if` or `else`. */
  function ConditionStart(line: string, i: nat, cur: string, start: nat): (k: nat)
    requires i <= |line| && start <= i
    ensures k <= |line|
    decreases |line| - i
  {
    if i == |line| then start
    else
      var cur' := if line[i] == ' ' then "" else cur + [line[i]];
      var start' := if cur' == "if" || cur' == "else" then i + 1 else start;
      ConditionStart(line, i + 1, cur', start')
  }

  /** Where the condition ends: the first '{' after the first character, or
      0 when there is none. */
  function ConditionEnd(line: string): (k: nat)
    ensures k < |line| || k == 0
    ensures k > 0 ==> line[k] == '{' && forall j :: 1 <= j < k ==> line[j] != '{'
  {
    if |line| < 2 then 0
    else
      var b := FindFrom(line, "{", 1);
      if b < |line| then
        assert line[b..b + 1][0] == line[b];
        assert forall j :: 1 <= j < b ==> line[j] != '{' by {
          forall j | 1 <= j < b ensures line[j] != '{' {
            assert !OccursAt(line, "{", j);
            assert line[j..j + 1][0] == line[j];
          }
        }
        b
      else 0
  }

  /** The condition text of a selection line, empty when it would be less
      than two characters long. */
  function ConditionText(line: string): string {
    var s := ConditionStart(line, 0, "", 0);
    var e := ConditionEnd(line);
    if s + 1 < e then line[s..e] else ""
  }

  /** The kind of selection a line opens, from its first words. */
  function SelectionKind(words: seq<string>, lineNum: int): (r: Result<SelectionType>)
    ensures r == Ok(If) <==> |words| > 0 && words[0] == "if"
    ensures r == Ok(ElseIf) <==> |words| >= 3 && words[0] == "}" && words[1] == "else" && words[2] == "if"
    ensures r == Ok(Else) <==> |words| >= 3 && words[0] == "}" && words[1] == "else" && words[2] != "if"
    ensures r.Err? ==> r.line == lineNum
  {
    if |words| == 0 then Err(lineNum, "index out of range")
    else if words[0] == "if" then Ok(If)
    else if words[0] != "}" then Err(lineNum, "selection without if keyword or }")
    else if |words| < 2 then Err(lineNum, "index out of range")
    else if words[1] != "else" then Err(lineNum, "expected else or else if after closed selection statement")
    else if |words| == 2 then Err(lineNum, "expected condition after keyword else")
    else if words[2] == "if" then Ok(ElseIf)
    else Ok(Else)
  }

  /** Reads an `if c {`, `} else if c {` or `} else {` line.  The condition
      of `if` and `else if` must be Bool; `else` must have none and gets an
      empty Bool condition. */
  function ParseSelection(line: string, tables: Tables, fuel: nat, lineNum: int): (r: Result<Step>)
    ensures r.Ok? ==> r.value.item.Selection? && r.value.tables == tables
    ensures r.Ok? ==> SelectionKind(Fields(line), lineNum) == Ok(r.value.item.selectionType)
    ensures r.Ok? ==> r.value.item.e.dataType == Bool
    ensures r.Ok? && r.value.item.selectionType == Else ==>
      r.value.item.e.items == [] && |Fields(ConditionText(line))| == 0
    ensures r.Ok? && r.value.item.selectionType != Else ==>
      Expressions.ParseExpression(ConditionText(line), tables, fuel, lineNum) == Ok(r.value.item.e)
    ensures r.Err? ==> r.line == lineNum
  {
    var kind :- SelectionKind(Fields(line), lineNum);
    if |line| == 2 then Err(lineNum, "if statement with no condition")
    else
      var expr := ConditionText(line);
      if kind == Else then
        if |Fields(expr)| != 0 then Err(lineNum, "else statements cannot contain a condition")
        else Ok(Step(Selection(Else, Expression([], Bool)), tables))
      else
        var cond :- Expressions.ParseExpression(expr, tables, fuel, lineNum);
        if cond.dataType != Bool then Err(lineNum, "if statement found with non-boolean condition")
        else Ok(Step(Selection(kind, cond), tables))
  }

  /** `} else {` opens an else branch with an empty condition. */
  lemma ElseLine(tables: Tables, fuel: nat, lineNum: int)
    ensures ParseSelection("} else {", tables, fuel, lineNum) == Ok(Step(Selection(Else, Expression([], Bool)), tables))
  {
    ElseWords();
    ElseText();
    ElseAccepted("} else {", tables, fuel, lineNum);
  }

  /** Every `} else` line with nothing between `else` and its brace is
      accepted as an else branch. */
  lemma ElseAccepted(line: string, tables: Tables, fuel: nat, lineNum: int)
    requires SelectionKind(Fields(line), lineNum) == Ok(Else)
    requires |line| != 2 && |Fields(ConditionText(line))| == 0
    ensures ParseSelection(line, tables, fuel, lineNum) == Ok(Step(Selection(Else, Expression([], Bool)), tables))
  {
  }

  lemma ElseText()
    ensures ConditionText("} else {") == ""
  {
    ElseStart();
    ElseEnd();
  }

  lemma ElseWords()
    ensures Fields("} else {") == ["}", "else", "{"]
  {
    assert NoSpace("}") && NoSpace("else") && NoSpace("{");
    FieldsJoin(["}", "else", "{"]);
    assert Join(["}", "else", "{"], " ") == "} else {";
  }

  lemma ElseStart()
    ensures ConditionStart("} else {", 0, "", 0) == 6
  {
    var l := "} else {";
    assert ConditionStart(l, 0, "", 0) == ConditionStart(l, 2, "", 0);
    assert ConditionStart(l, 2, "", 0) == ConditionStart(l, 6, "else", 6);
    assert ConditionStart(l, 6, "else", 6) == ConditionStart(l, 8, "{", 6);
  }

  lemma ElseEnd()
    ensures ConditionEnd("} else {") == 7
  {
    var l := "} else {";
    assert OccursAt(l, "{", 7) by { assert l[7..8] == "{"; }
    FindFirst(l, "{", 7, 1);
  }

  // ---------------------------------------------------------------------
  // Loops

  /** Reads a loop header `loop condition {`.  A bare `loop`, a '{' anywhere
      but at the end, and a condition that is not Bool are errors. */
  function ParseLoop(line: string, tables: Tables, fuel: nat, lineNum: int): (r: Result<Step>)
    ensures r.Ok? ==> r.value.item.Loop? && r.value.tables == tables
    ensures r.Ok? ==> var t := Trim(line);
      |Fields(line)| > 0 && Fields(line)[0] == "loop"
      && |t| >= 5 && t[|t| - 1] == '{' && (forall j :: 0 <= j < |t| - 1 ==> t[j] != '{')
      && Expressions.ParseExpression(t[4..|t| - 1], tables, fuel, lineNum) == Ok(r.value.item.e)
    ensures r.Ok? ==> r.value.item.e.dataType == Bool
    ensures Trim(line) == "loop" ==> r.Err?
    ensures r.Err? ==> r.line == lineNum
  {
    var words := Fields(line);
    if |words| == 0 || words[0] != "loop" then Err(lineNum, "loop statement without loop keyword")
    else
      var t := Trim(line);
      if |t| == 4 then Err(lineNum, "loop statement with blank line")
      else
        var b := FindFrom(t, "{", 0);
        if b < |t| - 1 then Err(lineNum, "scope opened in loop statement not at end of line")
        else
          var end := if b == |t| - 1 then b else 0;
          if end < 4 then Err(lineNum, "slice bounds out of range")
          else
            assert t[b..b + 1][0] == t[b];
            assert forall j :: 0 <= j < b ==> t[j] != '{' by {
              forall j | 0 <= j < b ensures t[j] != '{' {
                assert !OccursAt(t, "{", j);
                assert t[j..j + 1][0] == t[j];
              }
            }
            var e :- Expressions.ParseExpression(t[4..end], tables, fuel, lineNum);
            if e.dataType != Bool then Err(lineNum, "use of loop statement without boolean condition")
            else
              Ok(Step(Loop(e), tables))
  }

  // ---------------------------------------------------------------------
  // Macros

  /** The three macros. */
  function MacroKind(name: string, lineNum: int): (r: Result<MacroType>)
    ensures r == Ok(Print) <==> name == "print"
    ensures r == Ok(Println) <==> name == "println"
    ensures r == Ok(Panic) <==> name == "panic"
    ensures r.Err? ==> r.line == lineNum
  {
    if name == "print" then Ok(Print)
    else if name == "println" then Ok(Println)
    else if name == "panic" then Ok(Panic)
    else Err(lineNum, "attempt to use invalid macro " + name + "!")
  }

  /** The Go packages a macro needs: printing uses "fmt", panic nothing. */
  function MacroImports(kind: MacroType): (r: set<string>)
    ensures "fmt" in r <==> kind != Panic
    ensures r <= {"fmt"}
  {
    if kind == Panic then {} else {"fmt"}
  }

  /** The index of the first '!' of a line, or its length. */
  function Bang(line: string): (k: nat)
    ensures k <= |line|
    ensures k < |line| ==> line[k] == '!'
    ensures forall j :: 0 <= j < k ==> line[j] != '!'
  {
    var k := FindFrom(line, "!", 0);
    assert k < |line| ==> line[k] == '!' by {
      if k < |line| { assert line[k..k + 1][0] == line[k]; }
    }
    assert forall j :: 0 <= j < k ==> line[j] != '!' by {
      forall j | 0 <= j < k ensures line[j] != '!' {
        assert !OccursAt(line, "!", j);
        assert line[j..j + 1][0] == line[j];
      }
    }
    k
  }

  /** Reads `name!(argument)`: the trimmed text before the first '!' names
      the macro, and the text after it is the argument expression, which
      must be a String for `panic`. */
  function ParseMacro(line: string, tables: Tables, fuel: nat, lineNum: int): (r: Result<Item>)
    ensures r.Ok? ==> r.value.Macro?
    ensures r.Ok? ==> var k := Bang(line);
      k < |line| - 1
      && MacroKind(Trim(line[..k]), lineNum) == Ok(r.value.kind)
      && Expressions.ParseExpression(line[k + 1..], tables, fuel, lineNum) == Ok(r.value.e)
    ensures r.Ok? && r.value.kind == Panic ==> r.value.e.dataType == String
    ensures Bang(line) == |line| ==> r.Err?
    ensures r.Err? ==> r.line == lineNum
  {
    var k := Bang(line);
    if k == |line| then Err(lineNum, "macro call without !")
    else
      var name := Trim(line[..k]);
      var e :- Expressions.ParseExpression(line[k + 1..], tables, fuel, lineNum);
      var kind :- MacroKind(name, lineNum);
      if kind == Panic && e.dataType != String then Err(lineNum, "use of panic!() macro with non-string argument")
      else if k == |line| - 1 then Err(lineNum, "attempt to call macro with no argument")
      else Ok(Macro(kind, e))
  }

  /** The line of a loop header: `loop`, the condition, and `{`. */
  function LoopText(cond: string): string {
    "loop " + cond + " {"
  }

  /** A loop header written from a condition without '{' is accepted
      exactly when the condition reads as a Bool expression, and then the
      loop carries that expression and leaves the scope unchanged. */
  lemma LoopHeaderRead(cond: string, tables: Tables, fuel: nat, lineNum: int)
    requires !HasChar(cond, '{')
    ensures var r := ParseLoop(LoopText(cond), tables, fuel, lineNum);
      var e := Expressions.ParseExpression(" " + cond + " ", tables, fuel, lineNum);
      (r.Ok? <==> e.Ok? && e.value.dataType == Bool)
      && (r.Ok? ==> r.value == Step(Loop(e.value), tables))
  {
    LoopShape(cond);
    LoopOfShape(LoopText(cond), " " + cond + " ", tables, fuel, lineNum);
  }

  /** `loop cond {` starts with the word `loop`, is its own trim, and has
      its only '{' at the end. */
  lemma LoopShape(cond: string)
    requires !HasChar(cond, '{')
    ensures var t := LoopText(cond);
      |Fields(t)| > 0 && Fields(t)[0] == "loop" && Trim(t) == t && |t| > 5
      && FindFrom(t, "{", 0) == |t| - 1 && t[4..|t| - 1] == " " + cond + " "
  {
    LoopWords(cond);
    TrimUnspaced(LoopText(cond));
    LoopBrace(cond);
    assert LoopText(cond)[4..|LoopText(cond)| - 1] == " " + cond + " ";
  }

  /** The first word of `loop cond {` is `loop`. */
  lemma LoopWords(cond: string)
    ensures |Fields(LoopText(cond))| > 0 && Fields(LoopText(cond))[0] == "loop"
  {
    var y := cond + " {";
    FieldsSpace("loop", y);
    LoopIsWord();
    var ws := Fields("loop" + " " + y);
    assert ws == ["loop"] + Fields(y);
    assert LoopText(cond) == "loop" + " " + y;
  }

  /** `loop` is a word of its own. */
  lemma LoopIsWord()
    ensures Fields("loop") == ["loop"]
  {
    assert NoSpace("loop") by {
      assert forall i :: 0 <= i < 4 ==> "loop"[i] in {'l', 'o', 'p'};
    }
    FieldsOfWord("loop");
  }

  /** The first '{' of `loop cond {` is the last character. */
  lemma LoopBrace(cond: string)
    requires !HasChar(cond, '{')
    ensures FindFrom(LoopText(cond), "{", 0) == |LoopText(cond)| - 1
  {
    var t := LoopText(cond);
    forall j | 0 <= j < |t| - 1 ensures t[j] != '{' {
      if 5 <= j < 5 + |cond| { assert t[j] == cond[j - 5]; }
    }
    assert t[|t| - 1..|t|] == "{";
    FindFirst(t, "{", |t| - 1, 0);
  }

  /** The reading of any loop header of that shape. */
  lemma LoopOfShape(t: string, c: string, tables: Tables, fuel: nat, lineNum: int)
    requires |Fields(t)| > 0 && Fields(t)[0] == "loop" && Trim(t) == t && |t| > 5
    requires FindFrom(t, "{", 0) == |t| - 1 && t[4..|t| - 1] == c
    ensures var r := ParseLoop(t, tables, fuel, lineNum);
      var e := Expressions.ParseExpression(c, tables, fuel, lineNum);
      (r.Ok? <==> e.Ok? && e.value.dataType == Bool)
      && (r.Ok? ==> r.value == Step(Loop(e.value), tables))
  {
  }

  /** The line of a macro call: the macro's name, '!', and the argument. */
  function MacroText(name: string, argument: string): string {
    name + "!" + argument
  }

  /** A call of one of the three macros with a non-empty argument is
      accepted exactly when the argument reads as an expression, a String
      one for `panic`, and then it is that macro applied to that
      expression. */
  lemma MacroRead(name: string, argument: string, tables: Tables, fuel: nat, lineNum: int)
    requires name == "print" || name == "println" || name == "panic"
    requires |argument| > 0
    ensures var r := ParseMacro(MacroText(name, argument), tables, fuel, lineNum);
      var e := Expressions.ParseExpression(argument, tables, fuel, lineNum);
      (r.Ok? <==> e.Ok? && (name == "panic" ==> e.value.dataType == String))
      && (r.Ok? ==> r.value == Macro(MacroKind(name, lineNum).value, e.value))
  {
    var line := MacroText(name, argument);
    assert line[|name|] == '!';
    forall j | 0 <= j < |name| ensures line[j] != '!' {
      assert line[j] == name[j];
    }
    assert Bang(line) == |name|;
    assert line[..|name|] == name;
    TrimUnspaced(name);
    assert line[|name| + 1..] == argument;
  }
}
