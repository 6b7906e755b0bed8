/** Classifying a source line (src/transpiler/parser.go): which statement a
    line is, judged by its first word, and for a line that is not a
    statement, which kind of value it returns.  Classification does not
    check that the line is well formed; the parser chosen for it does.
 */
module LineKinds {
  import opened Results
  import opened GoText
  import opened Symbols
  import TuplePatterns
  import Identifiers

  /** What a line is, as the scope parser dispatches on it. */
  datatype ItemType =
    | VariableDeclaration | ArrDeclaration | TupDeclaration | FunctionDeclaration
    | VariableAssignment | ArrAssignment | TupAssignment | ArrIndexAssignment
    | SelectionIf | SelectionElseIf | SelectionElse
    | LoopStatement | LoopBreakStatement
    | ReturnStatement | DerivedReturnStatement | TupleReturnStatement
    | ScopeClose | MacroItem | Empty

  // ---------------------------------------------------------------------
  // Statements and values

  /** The number of '"' characters in `s`. */
  function Quotes(s: string): nat {
    if |s| == 0 then 0 else (if s[0] == '"' then 1 else 0) + Quotes(s[1..])
  }

  /** An '=' with an even number of quotes before it, that is, an '=' that
      is not inside a string literal. */
  predicate AssignsOutsideString(line: string) {
    exists k :: 0 <= k < |line| && line[k] == '=' && Quotes(line[..k]) % 2 == 0
  }

  /** The scan for an '=' outside string literals from index `i`, where
      `inString` tells whether a literal is open there. */
  function EqualsOutside(line: string, i: nat, inString: bool): bool
    requires i <= |line|
    decreases |line| - i
  {
    if i == |line| then false
    else
      var open := if line[i] == '"' then !inString else inString;
      (line[i] == '=' && !open) || EqualsOutside(line, i + 1, open)
  }

  /** Some '=' at or after `i` follows a number of quotes, counted from
      `i`, whose parity is `inString`. */
  ghost predicate EqualsFrom(line: string, i: nat, inString: bool)
    requires i <= |line|
  {
    exists k :: i <= k < |line| && line[k] == '=' && (Quotes(line[i..k]) % 2 == 1) == inString
  }

  lemma QuotesFirst(line: string, i: nat, k: nat)
    requires i < k <= |line|
    ensures Quotes(line[i..k]) == (if line[i] == '"' then 1 else 0) + Quotes(line[i + 1..k])
  {
    assert line[i..k][0] == line[i];
    assert line[i..k][1..] == line[i + 1..k];
  }

  /** The parity of the quotes from `i` to `k` in terms of the parity
      from `i + 1`. */
  lemma QuotesParity(line: string, i: nat, k: nat, inString: bool)
    requires i < k <= |line|
    ensures var open := if line[i] == '"' then !inString else inString;
      ((Quotes(line[i..k]) % 2 == 1) == inString) == ((Quotes(line[i + 1..k]) % 2 == 1) == open)
  {
    QuotesFirst(line, i, k);
  }

  /** One character of the scan: an '=' here outside a literal, or one
      later with the literal state updated by this character. */
  lemma EqualsFromStep(line: string, i: nat, inString: bool)
    requires i < |line|
    ensures var open := if line[i] == '"' then !inString else inString;
      EqualsFrom(line, i, inString) <==> (line[i] == '=' && !open) || EqualsFrom(line, i + 1, open)
  {
    var open := if line[i] == '"' then !inString else inString;
    assert line[i..i] == [];
    if EqualsFrom(line, i, inString) {
      var k :| i <= k < |line| && line[k] == '=' && (Quotes(line[i..k]) % 2 == 1) == inString;
      if k > i {
        QuotesParity(line, i, k, inString);
        assert i + 1 <= k < |line| && line[k] == '=' && (Quotes(line[i + 1..k]) % 2 == 1) == open;
      }
    }
    if EqualsFrom(line, i + 1, open) {
      var k :| i + 1 <= k < |line| && line[k] == '=' && (Quotes(line[i + 1..k]) % 2 == 1) == open;
      QuotesParity(line, i, k, inString);
      assert i <= k < |line| && line[k] == '=' && (Quotes(line[i..k]) % 2 == 1) == inString;
    }
  }

  /** The scan finds an '=' exactly when one follows an even number of
      quotes, counting from where the scan started. */
  lemma {:induction false} EqualsOutsideMeans(line: string, i: nat, inString: bool)
    requires i <= |line|
    ensures EqualsOutside(line, i, inString) <==>
      exists k :: i <= k < |line| && line[k] == '=' && (Quotes(line[i..k]) % 2 == 1) == inString
    decreases |line| - i
  {
    if i < |line| {
      var open := if line[i] == '"' then !inString else inString;
      EqualsOutsideMeans(line, i + 1, open);
      EqualsFromStep(line, i, inString);
      assert EqualsOutside(line, i + 1, open) == EqualsFrom(line, i + 1, open);
    }
  }

  /** First words that make a line a statement on their own. */
  const StatementWords: set<string> := {"if", "loop", "let", "}"}

  /** Whether a line is a statement rather than a returned value: a blank
      line, a line opening with `if`, `loop`, `let` or `}`, a macro call
      (any '!'), or an assignment (an '=' outside string literals). */
  function IsStatement(line: string): (r: bool)
    ensures r <==> |Fields(line)| == 0 || Fields(line)[0] in StatementWords
                   || HasChar(line, '!') || AssignsOutsideString(line)
  {
    var words := Fields(line);
    EqualsOutsideMeans(line, 0, false);
    assert forall k :: 0 <= k <= |line| ==> line[0..k] == line[..k];
    |words| == 0 || words[0] in StatementWords || HasChar(line, '!') || EqualsOutside(line, 0, false)
  }

  // ---------------------------------------------------------------------
  // Declarations and assignments

  /** Where the type annotation of a `let` line is: after `let`, the
      optional `mut`, and the name. */
  function TypeIndex(words: seq<string>): nat
    requires |words| >= 2
  {
    if words[1] == "mut" then 3 else 2
  }

  /** The three kinds of `let`: a type annotation opening with '(' is a
      tuple, one containing '[' an array, anything else a variable. */
  function DeclarationKind(typeWord: string): (k: ItemType)
    requires |typeWord| > 0
    ensures k == TupDeclaration <==> typeWord[0] == '('
    ensures k == ArrDeclaration <==> typeWord[0] != '(' && HasChar(typeWord, '[')
    ensures k == VariableDeclaration <==> typeWord[0] != '(' && !HasChar(typeWord, '[')
  {
    if typeWord[0] == '(' then TupDeclaration
    else if HasChar(typeWord, '[') then ArrDeclaration
    else VariableDeclaration
  }

  /** Which declaration a `let` line makes.  A line with fewer words than
      the annotation's position is an error. */
  function DeclarationType(line: string, lineNum: int): (r: Result<ItemType>)
    ensures var ws := Fields(line);
      r.Ok? <==> |ws| >= 2 && TypeIndex(ws) < |ws|
    ensures r.Ok? ==> var ws := Fields(line); r.value == DeclarationKind(ws[TypeIndex(ws)])
    ensures r.Err? ==> r.line == lineNum
  {
    var words := Fields(line);
    if |words| == 0 then Err(lineNum, "index out of range")
    else if |words| == 1 then Err(lineNum, "array declaration on line with only let keyword")
    else if TypeIndex(words) >= |words| then Err(lineNum, "index out of range")
    else Ok(DeclarationKind(words[TypeIndex(words)]))
  }

  /** The index of the first '[' in `w` at or after `i`, or `|w|`. */
  function FirstOpenSquare(w: string, i: nat): (k: nat)
    requires i <= |w|
    ensures i <= k <= |w|
    ensures k < |w| ==> w[k] == '['
    ensures forall j :: i <= j < k ==> w[j] != '['
    decreases |w| - i
  {
    if i == |w| || w[i] == '[' then i else FirstOpenSquare(w, i + 1)
  }

  /** Which assignment a line with an "=" word makes, judged by the table
      its first word is in; a first word with a '[' after its first
      character assigns to an array element. */
  function AssignmentType(line: string, tables: Tables, lineNum: int): (r: Result<ItemType>)
    ensures var ws := Fields(line);
      r.Ok? ==> (|ws| > 0
        && (r.value == VariableAssignment <==> ws[0] in tables.vars)
        && (r.value == ArrAssignment <==> ws[0] !in tables.vars && ws[0] in tables.arrays)
        && (r.value == TupAssignment <==> ws[0] !in tables.vars && ws[0] !in tables.arrays && ws[0] in tables.tuples))
    ensures var ws := Fields(line);
      r == Ok(ArrIndexAssignment) <==>
        |ws| > 0 && !Declared(tables.(functions := map[]), ws[0]) && HasChar(ws[0], '[') && ws[0][0] != '['
    ensures r.Err? ==> r.line == lineNum
  {
    var words := Fields(line);
    if |words| == 0 then Err(lineNum, "assignment on an empty line")
    else
      var w := words[0];
      if w in tables.vars then Ok(VariableAssignment)
      else if w in tables.arrays then Ok(ArrAssignment)
      else if w in tables.tuples then Ok(TupAssignment)
      else
        var k := FirstOpenSquare(w, 0);
        if k == |w| then Err(lineNum, "assignment to variable not in scope")
        else if k == 0 then Err(lineNum, "unexpected token [ at start of line")
        else Ok(ArrIndexAssignment)
  }

  // ---------------------------------------------------------------------
  // Returned values

  /** How the scan of a returned value ended: at a '(' in first position, at
      a later '(' with the characters read before it, or at the end. */
  datatype ReturnScanEnd = OpensTuple | StopsAt(prefix: string) | Ends

  /** The scan of a trimmed returned value from index `i`.  Outside string
      literals every character other than a quote or '(' is collected; the
      first '(' ends the scan, inside a literal or not. */
  function ReturnScan(line: string, i: nat, inString: bool, cur: string): (r: ReturnScanEnd)
    requires i < |line|
    ensures r.OpensTuple? ==> i == 0 && line[0] == '('
    decreases |line| - i
  {
    var c := line[i];
    if c == '(' then
      if i == 0 then OpensTuple else StopsAt(cur)
    else
      var open := if c == '"' then !inString else inString;
      var cur' := if c != '"' && !inString then cur + [c] else cur;
      if i == |line| - 1 then Ends else ReturnScan(line, i + 1, open, cur')
  }

  /** The kind a called function gives a returned call. */
  function DomainKind(d: ReturnDomain): ItemType {
    match d
    case Derived => DerivedReturnStatement
    case TupleReturn => TupleReturnStatement
    case Primitive => ReturnStatement
  }

  /** Which kind of value a line that is not a statement returns: a tuple
      literal, the value of a called function, an array literal or array,
      or a primitive value.  A call of an unknown function is an error. */
  function ReturnStatementType(l: string, tables: Tables, lineNum: int): (r: Result<ItemType>)
    ensures r.Ok? ==> r.value in {ReturnStatement, DerivedReturnStatement, TupleReturnStatement}
    ensures var t := Trim(l); |t| > 0 && t[0] == '(' ==> r == Ok(TupleReturnStatement)
    ensures var t := Trim(l); |t| > 0 && t[0] == '[' && !HasChar(t, '(') ==> r == Ok(DerivedReturnStatement)
    ensures r.Err? ==> r.line == lineNum
  {
    var line := Trim(l);
    var scan := if |line| == 0 then Ends else ReturnScan(line, 0, false, "");
    assert scan.StopsAt? ==> HasChar(line, '(') by {
      if |line| > 0 { StopsAtParen(line, 0, false, ""); }
    }
    if scan.OpensTuple? then Ok(TupleReturnStatement)
    else if scan.StopsAt? && |scan.prefix| > 0 then
      if scan.prefix in tables.functions then Ok(DomainKind(tables.functions[scan.prefix].returnDomain))
      else Err(lineNum, "attempt to call function not in scope")
    else if |line| == 0 then Err(lineNum, "index out of range")
    else if line[0] == '[' then Ok(DerivedReturnStatement)
    else
      var words := Fields(line);
      if |words| == 0 then Err(lineNum, "returned value on a blank line")
      else if words[0] in tables.vars then Ok(ReturnStatement)
      else if words[0] in tables.arrays then Ok(DerivedReturnStatement)
      else Ok(ReturnStatement)
  }

  /** The scan only stops early at a '('. */
  lemma {:induction false} StopsAtParen(line: string, i: nat, inString: bool, cur: string)
    requires i < |line|
    ensures ReturnScan(line, i, inString, cur).StopsAt? ==> HasChar(line, '(')
    decreases |line| - i
  {
    var c := line[i];
    if c != '(' && i < |line| - 1 {
      var open := if c == '"' then !inString else inString;
      var cur' := if c != '"' && !inString then cur + [c] else cur;
      StopsAtParen(line, i + 1, open, cur');
    }
  }

  /** A name in front of a '(' is collected whole by the scan. */
  lemma {:induction false} ScanName(w: string, tail: string, i: nat, cur: string)
    requires Identifiers.IsName(w) && i <= |w| && |tail| > 0 && tail[0] == '('
    requires cur == w[..i]
    requires i > 0 || |w| > 0
    ensures |w| > 0 ==> ReturnScan(w + tail, i, false, cur) == StopsAt(w)
    decreases |w| - i
  {
    var s := w + tail;
    if i == |w| {
      assert s[i] == '(';
      assert w[..i] == w;
    } else {
      assert s[i] == w[i] && Identifiers.IsWordChar(w[i]);
      assert w[..i] + [w[i]] == w[..i + 1];
      ScanName(w, tail, i + 1, w[..i + 1]);
    }
  }

  /** A returned call `f(…)` takes its kind from the domain of `f`, and is
      an error when `f` is not a function in scope. */
  lemma ReturnedCall(name: string, args: string, tables: Tables, lineNum: int)
    requires Identifiers.IsName(name)
    requires |args| == 0 || args[|args| - 1] != ' '
    ensures name in tables.functions ==>
      ReturnStatementType(name + "(" + args, tables, lineNum)
        == Ok(DomainKind(tables.functions[name].returnDomain))
    ensures name !in tables.functions ==> ReturnStatementType(name + "(" + args, tables, lineNum).Err?
  {
    var s := name + "(" + args;
    assert s == name + ("(" + args);
    assert s[0] == name[0] && Identifiers.ParseCharType(name[0]) == Identifiers.Letter;
    assert s[|s| - 1] != ' ';
    TuplePatterns.NoOuterSpaces(s);
    assert name[..0] == "";
    ScanName(name, "(" + args, 0, "");
  }

  // ---------------------------------------------------------------------
  // Lines

  /** The kind of a line, by its first word: keywords name their statement,
      a `}` alone closes a scope and `} else` / `} else if` open the next
      branch; any other line is a returned value when it is not a
      statement, otherwise a macro call when it has a '!', otherwise an
      assignment when one of its words is "=". */
  function GetItemType(line: string, tables: Tables, lineNum: int): (r: Result<ItemType>)
    ensures var ws := Fields(line); r == Ok(Empty) <==> |ws| == 0
    ensures var ws := Fields(line); |ws| > 0 && ws[0] == "let" ==> r == DeclarationType(line, lineNum)
    ensures var ws := Fields(line); |ws| > 0 && ws[0] == "function" ==> r == Ok(FunctionDeclaration)
    ensures var ws := Fields(line); |ws| > 0 && ws[0] == "if" ==> r == Ok(SelectionIf)
    ensures var ws := Fields(line); |ws| > 0 && ws[0] == "loop" ==> r == Ok(LoopStatement)
    ensures var ws := Fields(line); |ws| > 0 && ws[0] in {"break", "continue"} ==> r == Ok(LoopBreakStatement)
    ensures var ws := Fields(line); |ws| > 0 && ws[0] == "}" ==>
      (|ws| == 1 ==> r == Ok(ScopeClose))
      && (|ws| >= 2 && ws[1] != "else" ==> r.Err?)
      && (|ws| == 2 && ws[1] == "else" ==> r.Err?)
      && (|ws| >= 3 && ws[1] == "else" ==> r == Ok(if ws[2] == "if" then SelectionElseIf else SelectionElse))
    ensures var ws := Fields(line); |ws| > 0 && ws[0] !in LineKeywords ==>
      (!IsStatement(line) ==> r == ReturnStatementType(line, tables, lineNum))
      && (IsStatement(line) && HasChar(line, '!') ==> r == Ok(MacroItem))
    ensures r.Ok? && r.value in {VariableAssignment, ArrAssignment, TupAssignment, ArrIndexAssignment} ==>
      r == AssignmentType(line, tables, lineNum) && "=" in Fields(line)
    ensures r.Err? ==> r.line == lineNum
  {
    var words := Fields(line);
    if |words| == 0 then Ok(Empty)
    else
      var w := words[0];
      if w == "function" then Ok(FunctionDeclaration)
      else if w == "let" then DeclarationType(line, lineNum)
      else if w == "if" then Ok(SelectionIf)
      else if w == "loop" then Ok(LoopStatement)
      else if w == "break" || w == "continue" then Ok(LoopBreakStatement)
      else if w == "}" then
        if |words| == 1 then Ok(ScopeClose)
        else if words[1] != "else" then
          Err(lineNum, "only an else/else if statement can be opened on the same line where another scope is closed")
        else if |words| < 3 then Err(lineNum, "keyword else followed by nothing")
        else if words[2] == "if" then Ok(SelectionElseIf)
        else Ok(SelectionElse)
      else if !IsStatement(line) then ReturnStatementType(line, tables, lineNum)
      else if HasChar(line, '!') then Ok(MacroItem)
      else if "=" in words then AssignmentType(line, tables, lineNum)
      else Err(lineNum, "invalid line")
  }

  /** First words the classifier handles before looking at the rest. */
  const LineKeywords: set<string> := {"function", "let", "if", "loop", "break", "continue", "}"}

  /** A `let` line is classified by its type annotation alone. */
  lemma LetLine(mutable: bool, name: string, typeWord: string, rest: seq<string>, tables: Tables, lineNum: int)
    requires |name| > 0 && NoSpace(name) && name != "mut"
    requires |typeWord| > 0 && NoSpace(typeWord)
    requires forall i :: 0 <= i < |rest| ==> |rest[i]| > 0 && NoSpace(rest[i])
    ensures var ws := ["let"] + (if mutable then ["mut"] else []) + [name, typeWord] + rest;
      GetItemType(Join(ws, " "), tables, lineNum) == Ok(DeclarationKind(typeWord))
  {
    var ws := ["let"] + (if mutable then ["mut"] else []) + [name, typeWord] + rest;
    assert NoSpace("let") && NoSpace("mut");
    assert forall i :: 0 <= i < |ws| ==> |ws[i]| > 0 && NoSpace(ws[i]);
    FieldsJoin(ws);
  }

  /** A line `} else …` opens an else-if branch exactly when its third word
      is `if`, and `}` followed by anything other than `else` is an error. */
  lemma CloserLine(second: string, rest: seq<string>, tables: Tables, lineNum: int)
    requires |second| > 0 && NoSpace(second)
    requires forall i :: 0 <= i < |rest| ==> |rest[i]| > 0 && NoSpace(rest[i])
    ensures var r := GetItemType(Join(["}", second] + rest, " "), tables, lineNum);
      (second != "else" ==> r.Err?)
      && (second == "else" && |rest| > 0 && rest[0] == "if" ==> r == Ok(SelectionElseIf))
      && (second == "else" && |rest| > 0 && rest[0] != "if" ==> r == Ok(SelectionElse))
      && (second == "else" && |rest| == 0 ==> r.Err?)
  {
    var ws := ["}", second] + rest;
    assert NoSpace("}");
    assert forall i :: 0 <= i < |ws| ==> |ws[i]| > 0 && NoSpace(ws[i]);
    FieldsJoin(ws);
  }
}
