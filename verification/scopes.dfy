/** Reading a scope (src/transpiler/parser.go, `parseScope`): the lines of a
    block are classified one by one and parsed into items.  Lines inside an
    inner block are skipped by brace counting; a function, `if`, `else`
    or `loop` header reads its whole block as a nested scope and the scan
    resumes at the line closing it.  The global scope holds only
    functions.  Scopes nest as deeply as the `depth` bound allows.
 */
module Scopes {
  import opened Results
  import opened GoText
  import opened Symbols
  import opened Items
  import Brackets
  import LineKinds
  import Expressions
  import Statements
  import ArrayStatements
  import TupleStatements
  import Functions
  import ExpectedTypes

  /** A parsed scope, the Go packages its macros import and the tuple
      arities its annotations use. */
  datatype ParsedScope = ParsedScope(scope: Scope, imports: set<string>, arities: set<nat>)

  /** The scan state: tables and items so far, the open-brace count of the
      lines read, imports and arities so far. */
  datatype State = State(tables: Tables, items: seq<Item>, count: int, imports: set<string>, arities: set<nat>)

  /** A nested block read: the state after it and the line to resume at. */
  datatype Jump = Jump(st: State, next: nat)

  // ---------------------------------------------------------------------
  // Brace counting

  /** The brace count after a line, and whether it stood at zero after any
      of its characters: only then is the line part of the scope itself. */
  datatype LineCount = LineCount(count: int, inMain: bool)

  function BraceDelta(c: char): int {
    if c == '{' then 1 else if c == '}' then -1 else 0
  }

  function CountLine(line: string, i: nat, count: int, inMain: bool): LineCount
    requires i <= |line|
    decreases |line| - i
  {
    if i == |line| then LineCount(count, inMain)
    else
      var count' := count + BraceDelta(line[i]);
      CountLine(line, i + 1, count', inMain || count' == 0)
  }

  /** The count after a line is the count before it plus the line's net
      number of opening braces. */
  lemma {:induction false} CountLineNet(line: string, i: nat, count: int, inMain: bool)
    requires i <= |line|
    ensures CountLine(line, i, count, inMain).count == count + Brackets.Net('{', '}', line[i..])
    decreases |line| - i
  {
    if i < |line| {
      assert line[i..][1..] == line[i + 1..];
      CountLineNet(line, i + 1, count + BraceDelta(line[i]), inMain || count + BraceDelta(line[i]) == 0);
    }
  }

  /** A non-empty line without braces belongs to the scope itself exactly
      when the count before it is zero: lines of an inner block that was
      not read as a nested scope are passed over. */
  lemma {:induction false} PlainLineInMain(line: string, i: nat, count: int, inMain: bool)
    requires i <= |line|
    requires forall j :: i <= j < |line| ==> line[j] != '{' && line[j] != '}'
    ensures CountLine(line, i, count, inMain) == LineCount(count, inMain || (i < |line| && count == 0))
    decreases |line| - i
  {
    if i < |line| {
      PlainLineInMain(line, i + 1, count, inMain || count == 0);
    }
  }

  // ---------------------------------------------------------------------
  // Where items may appear

  /** `break` and `continue` are inside a loop: going out from the
      innermost scope, a loop scope comes before the global scope.
      `chain[0]` is the current scope's type, then its parent's, and so
      on. */
  function BreakAllowed(chain: seq<ScopeType>): (r: bool)
    decreases |chain|
  {
    if |chain| == 0 then false
    else if chain[0] == Global then false
    else if chain[0] == LoopScope then true
    else BreakAllowed(chain[1..])
  }

  /** `BreakAllowed` holds exactly when some enclosing scope is a loop and
      no scope between it and the current one is global. */
  lemma {:induction false} BreakAllowedIff(chain: seq<ScopeType>)
    ensures BreakAllowed(chain) <==>
      exists i :: 0 <= i < |chain| && chain[i] == LoopScope && forall j :: 0 <= j < i ==> chain[j] != Global
    decreases |chain|
  {
    if |chain| > 0 && chain[0] != Global && chain[0] != LoopScope {
      BreakAllowedIff(chain[1..]);
      if BreakAllowed(chain) {
        var i :| 0 <= i < |chain[1..]| && chain[1..][i] == LoopScope && forall j :: 0 <= j < i ==> chain[1..][j] != Global;
        assert chain[i + 1] == LoopScope;
        assert forall j :: 0 <= j < i + 1 ==> chain[j] != Global by {
          forall j | 0 <= j < i + 1 ensures chain[j] != Global {
            if j > 0 { assert chain[j] == chain[1..][j - 1]; }
          }
        }
      } else {
        forall i | 0 <= i < |chain| && chain[i] == LoopScope
          ensures exists j :: 0 <= j < i && chain[j] == Global
        {
          assert i > 0;
          assert chain[1..][i - 1] == LoopScope;
          var j :| 0 <= j < i - 1 && chain[1..][j] == Global;
          assert chain[j + 1] == Global;
        }
      }
    } else if |chain| > 0 && chain[0] == LoopScope {
      assert chain[0] == LoopScope;
    }
  }

  /** What the source lets each kind of scope hold: the global scope only
      functions, their bodies and closing braces; returned values only a
      function's own body; `break` only something inside a loop. */
  predicate AllowedIn(item: Item, chain: seq<ScopeType>)
    requires |chain| > 0
  {
    (chain[0] == Global ==> item.FunctionDeclaration? || item.Nested? || item.ScopeCloser?)
    && (item.Returned? || item.ReturnedArray? || item.ReturnedTuple? ==> chain[0] == FunctionScope)
    && (item.Break? ==> BreakAllowed(chain))
  }

  predicate AllAllowed(items: seq<Item>, chain: seq<ScopeType>)
    requires |chain| > 0
  {
    forall i :: 0 <= i < |items| ==> AllowedIn(items[i], chain)
  }

  /** The state with one more item and the tables after it. */
  function Push(st: State, item: Item, tables: Tables): State {
    st.(items := st.items + [item], tables := tables)
  }

  /** A nested block's kind of line. */
  predicate OpensBlock(t: LineKinds.ItemType) {
    t in {LineKinds.FunctionDeclaration, LineKinds.SelectionIf, LineKinds.SelectionElse, LineKinds.SelectionElseIf,
          LineKinds.LoopStatement}
  }

  /** What reading one line may do to the state: add names, imports of
      "fmt" and arities, and append items the scope may hold. */
  predicate Advances(st: State, st': State, chain: seq<ScopeType>)
    requires |chain| > 0
  {
    Extends(st'.tables, st.tables)
    && st.imports <= st'.imports <= st.imports + {"fmt"} && st.arities <= st'.arities
    && |st.items| <= |st'.items| && st'.items[..|st.items|] == st.items
    && forall i :: |st.items| <= i < |st'.items| ==> AllowedIn(st'.items[i], chain)
  }

  /** Advancing twice is advancing. */
  lemma AdvancesTransitive(a: State, b: State, c: State, chain: seq<ScopeType>)
    requires |chain| > 0 && Advances(a, b, chain) && Advances(b, c, chain)
    ensures Advances(a, c, chain)
  {
    ExtendsTransitive(c.tables, b.tables, a.tables);
    assert c.items[..|a.items|] == c.items[..|b.items|][..|a.items|];
    forall i | |a.items| <= i < |c.items| ensures AllowedIn(c.items[i], chain) {
      if i < |b.items| {
        assert c.items[i] == c.items[..|b.items|][i];
      }
    }
  }

  /** A one-line item appended to the state. */
  lemma PushAdvances(st: State, item: Item, tables: Tables, chain: seq<ScopeType>)
    requires |chain| > 0 && Extends(tables, st.tables) && AllowedIn(item, chain)
    ensures Advances(st, Push(st, item, tables), chain)
  {
    assert Push(st, item, tables).items[..|st.items|] == st.items;
  }

  /** Recording more arities keeps a step an advance. */
  lemma RecordArities(st: State, st': State, arities: set<nat>, chain: seq<ScopeType>)
    requires |chain| > 0 && Advances(st, st', chain)
    ensures Advances(st, st'.(arities := st'.arities + arities), chain)
  {
  }

  /** So does importing "fmt". */
  lemma RecordImports(st: State, st': State, imports: set<string>, chain: seq<ScopeType>)
    requires |chain| > 0 && Advances(st, st', chain) && imports <= {"fmt"}
    ensures Advances(st, st'.(imports := st'.imports + imports), chain)
  {
  }

  // ---------------------------------------------------------------------
  // One-line items

  /** Parses a line that is not a block header, of kind `t`, into the
      state.  `lineNum` is the line the scope opened on: the source reports
      errors in array and tuple returns against it. */
  function SimpleStep(lines: seq<string>, n: nat, lineNum: nat, t: LineKinds.ItemType, chain: seq<ScopeType>,
                      st: State, illegal: set<string>, fuel: nat): (r: Result<State>)
    requires n < |lines| && |chain| > 0 && !OpensBlock(t)
    ensures r.Ok? ==> Advances(st, r.value, chain) && r.value.count == st.count
    ensures t == LineKinds.Empty ==> r == Ok(st)
    ensures chain[0] == Global && t !in {LineKinds.Empty, LineKinds.ScopeClose} ==> r.Err?
  {
    if t in {LineKinds.VariableDeclaration, LineKinds.ArrDeclaration, LineKinds.TupDeclaration} then
      DeclarationStep(lines[n], n, t, chain, st, illegal, fuel)
    else if t in {LineKinds.VariableAssignment, LineKinds.ArrAssignment, LineKinds.TupAssignment,
                  LineKinds.ArrIndexAssignment} then
      AssignmentStep(lines[n], n, t, chain, st, fuel)
    else if t in {LineKinds.ReturnStatement, LineKinds.DerivedReturnStatement, LineKinds.TupleReturnStatement} then
      ReturnStep(lines, n, lineNum, t, chain, st, fuel)
    else OtherStep(lines[n], n, lineNum, t, chain, st, fuel)
  }

  /** A declaration: parsed first, then refused in the global scope. */
  function DeclarationStep(line: string, n: nat, t: LineKinds.ItemType, chain: seq<ScopeType>, st: State,
                           illegal: set<string>, fuel: nat): (r: Result<State>)
    requires |chain| > 0
    requires t in {LineKinds.VariableDeclaration, LineKinds.ArrDeclaration, LineKinds.TupDeclaration}
    ensures r.Ok? ==> Advances(st, r.value, chain) && r.value.count == st.count
    ensures chain[0] == Global ==> r.Err?
  {
    if t == LineKinds.VariableDeclaration then VariableStep(line, n, chain, st, illegal, fuel)
    else if t == LineKinds.ArrDeclaration then ArrayStep(line, n, chain, st, illegal, fuel)
    else TupleStep(line, n, chain, st, illegal, fuel)
  }

  /** `let [mut] name: type = value`, not allowed as a global. */
  function VariableStep(line: string, n: nat, chain: seq<ScopeType>, st: State, illegal: set<string>, fuel: nat)
    : (r: Result<State>)
    requires |chain| > 0
    ensures r.Ok? ==> Advances(st, r.value, chain) && r.value.count == st.count && r.value.arities == st.arities
    ensures chain[0] == Global ==> r.Err?
  {
    var step := Statements.ParseVariableDeclaration(line, st.tables, illegal, fuel, n);
    if step.Err? then Err(step.line, step.msg)
    else if chain[0] == Global then Err(n, "global variables are not allowed in Stella")
    else
      AddVariableExtends(st.tables, step.value.item.v);
      PushAdvances(st, step.value.item, step.value.tables, chain);
      Ok(Push(st, step.value.item, step.value.tables))
  }

  /** An array declaration, not allowed as a global. */
  function ArrayStep(line: string, n: nat, chain: seq<ScopeType>, st: State, illegal: set<string>, fuel: nat)
    : (r: Result<State>)
    requires |chain| > 0
    ensures r.Ok? ==> Advances(st, r.value, chain) && r.value.count == st.count && r.value.arities == st.arities
    ensures chain[0] == Global ==> r.Err?
  {
    var step := ArrayStatements.ParseArrayDeclaration(line, st.tables, illegal, fuel, n);
    if step.Err? then Err(step.line, step.msg)
    else if chain[0] == Global then Err(n, "global arrays are not allowed in Stella")
    else
      AddArrayExtends(st.tables, step.value.item.arr);
      PushAdvances(st, step.value.item, step.value.tables, chain);
      Ok(Push(st, step.value.item, step.value.tables))
  }

  /** A tuple declaration, not allowed as a global; its arity is
      recorded. */
  function TupleStep(line: string, n: nat, chain: seq<ScopeType>, st: State, illegal: set<string>, fuel: nat)
    : (r: Result<State>)
    requires |chain| > 0
    ensures r.Ok? ==> Advances(st, r.value, chain) && r.value.count == st.count
    ensures chain[0] == Global ==> r.Err?
  {
    var step := TupleStatements.ParseTupleDeclaration(line, st.tables, illegal, fuel, n);
    if step.Err? then Err(step.line, step.msg)
    else if chain[0] == Global then Err(n, "global tuples are not allowed in Stella")
    else
      AddTupleExtends(st.tables, step.value.item.t);
      var arity := |step.value.item.t.pattern.dataTypes|;
      PushAdvances(st, step.value.item, step.value.tables, chain);
      RecordArities(st, Push(st, step.value.item, step.value.tables), {arity}, chain);
      Ok(Push(st, step.value.item, step.value.tables).(arities := st.arities + {arity}))
  }

  /** An assignment: parsed first, then refused in the global scope.  It
      leaves the tables as they were. */
  function AssignmentStep(line: string, n: nat, t: LineKinds.ItemType, chain: seq<ScopeType>, st: State, fuel: nat)
    : (r: Result<State>)
    requires |chain| > 0
    requires t in {LineKinds.VariableAssignment, LineKinds.ArrAssignment, LineKinds.TupAssignment,
                   LineKinds.ArrIndexAssignment}
    ensures r.Ok? ==> Advances(st, r.value, chain) && r.value.count == st.count && r.value.tables == st.tables
    ensures chain[0] == Global ==> r.Err?
  {
    var step :- if t == LineKinds.VariableAssignment then Statements.ParseAssignment(line, st.tables, fuel, n)
      else if t == LineKinds.ArrAssignment then ArrayStatements.ParseArrayAssignment(line, st.tables, fuel, n)
      else if t == LineKinds.TupAssignment then TupleStatements.ParseTupleAssignment(line, st.tables, fuel, n)
      else ArrayStatements.ParseArrayIndexAssignment(line, st.tables, fuel, n);
    if chain[0] == Global then Err(n, "global variables, arrays and tuples are not allowed in Stella")
    else
      PushAdvances(st, step.item, st.tables, chain);
      Ok(Push(st, step.item, st.tables))
  }

  /** A returned value, only in a function's own body.  An array value is
      read against the base type of the enclosing header's annotation and
      a tuple value against its pattern, whose arity is recorded. */
  function ReturnStep(lines: seq<string>, n: nat, lineNum: nat, t: LineKinds.ItemType, chain: seq<ScopeType>,
                      st: State, fuel: nat): (r: Result<State>)
    requires n < |lines| && |chain| > 0
    requires t in {LineKinds.ReturnStatement, LineKinds.DerivedReturnStatement, LineKinds.TupleReturnStatement}
    ensures r.Ok? ==> Advances(st, r.value, chain) && r.value.count == st.count && r.value.tables == st.tables
    ensures chain[0] != FunctionScope ==> r.Err?
  {
    var line := lines[n];
    if chain[0] != FunctionScope then Err(n + 1, "found return statement outside function scope")
    else if t == LineKinds.ReturnStatement then
      var e :- Expressions.ParseExpression(line, st.tables, fuel, n);
      PushAdvances(st, Returned(e), st.tables, chain);
      Ok(Push(st, Returned(e), st.tables))
    else if t == LineKinds.DerivedReturnStatement then
      var expected :- ExpectedTypes.ExpectedType(lines, n);
      var ae :- Expressions.ParseArrayExpression(line, expected, st.tables, fuel, lineNum);
      PushAdvances(st, ReturnedArray(ae), st.tables, chain);
      Ok(Push(st, ReturnedArray(ae), st.tables))
    else
      var pattern :- ExpectedTypes.ExpectedPattern(lines, n);
      var te :- Expressions.ParseTupleExpression(line, pattern, st.tables, fuel, lineNum);
      PushAdvances(st, ReturnedTuple(te), st.tables, chain);
      RecordArities(st, Push(st, ReturnedTuple(te), st.tables), {|pattern.dataTypes|}, chain);
      Ok(Push(st, ReturnedTuple(te), st.tables).(arities := st.arities + {|pattern.dataTypes|}))
  }

  /** `break`/`continue`, macros, blank lines and lone closing braces. */
  function OtherStep(line: string, n: nat, lineNum: nat, t: LineKinds.ItemType, chain: seq<ScopeType>, st: State,
                     fuel: nat): (r: Result<State>)
    requires |chain| > 0
    ensures r.Ok? ==> Advances(st, r.value, chain) && r.value.count == st.count && r.value.tables == st.tables
    ensures t == LineKinds.Empty ==> r == Ok(st)
    ensures t == LineKinds.LoopBreakStatement && !BreakAllowed(chain) ==> r.Err?
    ensures chain[0] == Global && t !in {LineKinds.Empty, LineKinds.ScopeClose} ==> r.Err?
  {
    if t == LineKinds.LoopBreakStatement then
      if !BreakAllowed(chain) then Err(lineNum + 1, "found break/continue statement not inside any loop")
      else
        PushAdvances(st, Break(line), st.tables, chain);
        Ok(Push(st, Break(line), st.tables))
    else if t == LineKinds.MacroItem then
      if chain[0] == Global then Err(n, "global macros are not allowed in Stella as they will never execute")
      else
        var m :- Statements.ParseMacro(line, st.tables, fuel, n);
        PushAdvances(st, m, st.tables, chain);
        RecordImports(st, Push(st, m, st.tables), Statements.MacroImports(m.kind), chain);
        Ok(Push(st, m, st.tables).(imports := st.imports + Statements.MacroImports(m.kind)))
    else if t == LineKinds.Empty then Ok(st)
    else if t == LineKinds.ScopeClose then
      if Fields(line) != ["}"] then Err(n, "scope closer must be a lone }")
      else
        PushAdvances(st, ScopeCloser("}"), st.tables, chain);
        Ok(Push(st, ScopeCloser("}"), st.tables))
    else Err(n, "line kind without a parser")
  }

  /** The `else` check: going back from line `i - 1` with the count
      starting at -1, the first line that brings the brace count to zero
      must be an `if` line.  If none does, nothing is checked. */
  function PrecedingIf(lines: seq<string>, i: nat, count: int, tables: Tables, n: nat): (r: Result<()>)
    requires i <= |lines|
    decreases i
  {
    if i == 0 then Ok(())
    else
      var count' := count + Brackets.Net('{', '}', lines[i - 1]);
      if count' == 0 then
        var t :- LineKinds.GetItemType(lines[i - 1], tables, i - 1);
        if t != LineKinds.SelectionIf then Err(n + 1, "else/else if statements must be preceded by if statements")
        else Ok(())
      else PrecedingIf(lines, i - 1, count', tables, n)
  }

  /** The header item of an `if`, `else`, `else if` or loop block, read in
      the enclosing tables without their tuples.  An `else` must follow a
      nested scope, and the line where the braces before it balance must
      be an `if`. */
  function BlockHeader(lines: seq<string>, n: nat, t: LineKinds.ItemType, st: State, fuel: nat): (r: Result<Item>)
    requires n < |lines|
    ensures r.Ok? ==> (r.value.Loop? <==> t == LineKinds.LoopStatement)
    ensures r.Ok? && t != LineKinds.LoopStatement ==> r.value.Selection?
    ensures t in {LineKinds.SelectionElse, LineKinds.SelectionElseIf} && (|st.items| == 0 || !st.items[|st.items| - 1].Nested?)
      ==> r.Err?
  {
    var line := lines[n];
    if t == LineKinds.LoopStatement then
      var step :- Statements.ParseLoop(line, HeaderTables(st.tables), fuel, n);
      Ok(step.item)
    else
      var checked :- if t == LineKinds.SelectionIf then Ok(())
        else if |st.items| == 0 || !st.items[|st.items| - 1].Nested? then
          Err(n + 1, "else/else if statements must be preceded by other selection statements")
        else PrecedingIf(lines, n, -1, st.tables, n);
      var step :- Statements.ParseSelection(line, HeaderTables(st.tables), fuel, n);
      Ok(step.item)
  }

  // ---------------------------------------------------------------------
  // Scopes

  /** Reads the scope opened on line `lineNum`.  `chain` lists the types
      of this scope and its enclosing ones, innermost first; `parent` holds
      the names visible at its start.  The global scope covers every line
      from `lineNum`; any other covers the lines strictly between its
      header and the line that closes it. */
  function ParseScope(lines: seq<string>, lineNum: nat, chain: seq<ScopeType>, parent: Tables,
                      illegal: set<string>, depth: nat, fuel: nat): (r: Result<ParsedScope>)
    requires |chain| > 0
    ensures r.Ok? ==> |r.value.scope.items| > 0 && r.value.scope.scopeType == chain[0]
    ensures r.Ok? ==> Brackets.FindScopeEnd(lines, lineNum).Ok?
    ensures r.Ok? && chain[0] != Global ==> Brackets.FindScopeEnd(lines, lineNum).value > lineNum
    ensures r.Ok? ==> Extends(r.value.scope.tables, parent)
    ensures r.Ok? ==> r.value.imports <= {"fmt"}
    ensures r.Ok? ==> AllAllowed(r.value.scope.items, chain)
    decreases depth, 3, 0
  {
    if depth == 0 then Err(lineNum + 1, "scopes nested too deeply")
    else
      var scopeEnd :- Brackets.FindScopeEnd(lines, lineNum);
      var start := if chain[0] == Global then lineNum else lineNum + 1;
      var end := if chain[0] == Global then |lines| else scopeEnd;
      var init := State(parent, [], 0, {}, {});
      var st :- ScopeLines(lines, start, end, lineNum, chain, init, illegal, depth, fuel);
      if |st.items| == 0 then Err(lineNum + 1, "scope is empty")
      else
        assert st.items[..0] == [];
        Ok(ParsedScope(Scope(st.tables, st.items, chain[0]), st.imports, st.arities))
  }

  /** Reads lines `n` up to `end` into the state. */
  function ScopeLines(lines: seq<string>, n: nat, end: nat, lineNum: nat, chain: seq<ScopeType>, st: State,
                      illegal: set<string>, depth: nat, fuel: nat): (r: Result<State>)
    requires end <= |lines| && |chain| > 0 && depth > 0
    ensures n >= end ==> r == Ok(st)
    ensures r.Ok? ==> Advances(st, r.value, chain)
    decreases depth, 2, |lines| - n
  {
    if n >= end then
      assert st.items[..|st.items|] == st.items;
      Ok(st)
    else
      var j :- LineStep(lines, n, lineNum, chain, st, illegal, depth, fuel);
      var r :- ScopeLines(lines, j.next, end, lineNum, chain, j.st, illegal, depth, fuel);
      AdvancesTransitive(st, j.st, r, chain);
      Ok(r)
  }

  /** Reads line `n`: a line of an inner block is passed over, a block
      header reads the whole block, any other line is one item. */
  function LineStep(lines: seq<string>, n: nat, lineNum: nat, chain: seq<ScopeType>, st: State,
                    illegal: set<string>, depth: nat, fuel: nat): (r: Result<Jump>)
    requires n < |lines| && |chain| > 0 && depth > 0
    ensures r.Ok? ==> r.value.next > n && Advances(st, r.value.st, chain)
    decreases depth, 1, 0
  {
    var line := lines[n];
    var c := CountLine(line, 0, st.count, false);
    var t :- LineKinds.GetItemType(line, st.tables, n);
    var st0 := st.(count := c.count);
    assert st0.items[..|st.items|] == st.items;
    if !c.inMain && t != LineKinds.ScopeClose then Ok(Jump(st0, n + 1))
    else if t == LineKinds.FunctionDeclaration then FunctionBlock(lines, n, chain, st0, illegal, depth, fuel)
    else if OpensBlock(t) then ControlBlock(lines, n, t, chain, st0, illegal, depth, fuel)
    else
      var st' :- SimpleStep(lines, n, lineNum, t, chain, st0, illegal, fuel);
      Ok(Jump(st', n + 1))
  }

  /** The state after a block: its header item and nested scope
      appended, and the block's imports and arities added. */
  function AfterBlock(st: State, header: Item, body: ParsedScope, tables: Tables, arities: set<nat>,
                      chain: seq<ScopeType>): (r: State)
    requires |chain| > 0 && AllowedIn(header, chain) && Extends(tables, st.tables) && body.imports <= {"fmt"}
    ensures Advances(st, r, chain)
    ensures r.items == st.items + [header, Nested(body.scope)] && r.tables == tables && r.count == st.count
  {
    var r := State(tables, st.items + [header, Nested(body.scope)], st.count,
                   st.imports + body.imports, st.arities + arities + body.arities);
    assert r.items[..|st.items|] == st.items;
    r
  }

  /** The state after a function block: the function is added to the
      enclosing tables, which did not hold its name. */
  function AfterFunction(st: State, h: Functions.Header, body: ParsedScope, chain: seq<ScopeType>): (r: State)
    requires |chain| > 0 && h.f.identifier !in st.tables.functions && body.imports <= {"fmt"}
    ensures Advances(st, r, chain)
    ensures r.items == st.items + [FunctionDeclaration(h.f), Nested(body.scope)] && r.count == st.count
    ensures r.tables == st.tables.(functions := st.tables.functions[h.f.identifier := h.f])
  {
    var tables := st.tables.(functions := st.tables.functions[h.f.identifier := h.f]);
    AddFunctionExtends(st.tables, h.f);
    AfterBlock(st, FunctionDeclaration(h.f), body, tables, h.arities, chain)
  }

  /** A function header and its body.  The header is read in the
      enclosing tables without their tuples; the body is a function scope
      whose parent is the header's own scope, and the function is added to
      the enclosing tables. */
  function FunctionBlock(lines: seq<string>, n: nat, chain: seq<ScopeType>, st: State,
                         illegal: set<string>, depth: nat, fuel: nat): (r: Result<Jump>)
    requires n < |lines| && |chain| > 0 && depth > 0
    ensures r.Ok? ==> r.value.next > n && Advances(st, r.value.st, chain)
    ensures r.Ok? ==> (|r.value.st.items| == |st.items| + 2 && r.value.st.items[|st.items|].FunctionDeclaration?
      && r.value.st.items[|st.items| + 1].Nested?)
    ensures r.Ok? ==> var f := r.value.st.items[|st.items|].f;
      r.value.st.tables == st.tables.(functions := st.tables.functions[f.identifier := f])
    decreases depth, 0, 0
  {
    var h :- Functions.ParseFunction(lines, n, HeaderTables(st.tables), illegal, fuel);
    var body :- ParseScope(lines, n, [FunctionScope, FunctionScope], h.tables, illegal, depth - 1, fuel);
    Ok(Jump(AfterFunction(st, h, body, chain), Brackets.FindScopeEnd(lines, n).value))
  }

  /** An `if`, `else if`, `else` or loop header and its block, refused in
      the global scope.  The block's parent is the enclosing scope itself;
      the enclosing tables are left as they were, so names declared inside
      the block are not visible after it. */
  function ControlBlock(lines: seq<string>, n: nat, t: LineKinds.ItemType, chain: seq<ScopeType>, st: State,
                        illegal: set<string>, depth: nat, fuel: nat): (r: Result<Jump>)
    requires n < |lines| && |chain| > 0 && depth > 0
    ensures r.Ok? ==> r.value.next > n && Advances(st, r.value.st, chain)
    ensures r.Ok? ==> r.value.st.tables == st.tables
    ensures r.Ok? ==> |r.value.st.items| == |st.items| + 2 && r.value.st.items[|st.items| + 1].Nested?
    ensures chain[0] == Global ==> r.Err?
    ensures t in {LineKinds.SelectionElse, LineKinds.SelectionElseIf} && (|st.items| == 0 || !st.items[|st.items| - 1].Nested?)
      ==> r.Err?
    decreases depth, 0, 0
  {
    if chain[0] == Global then Err(n, "global if statements and loops are not allowed in Stella")
    else
      var header :- BlockHeader(lines, n, t, st, fuel);
      var scopeType := if t == LineKinds.LoopStatement then LoopScope else SelectionScope;
      var body :- ParseScope(lines, n, [scopeType] + chain, st.tables, illegal, depth - 1, fuel);
      var ended := Brackets.FindScopeEnd(lines, n).value;
      Ok(Jump(AfterBlock(st, header, body, st.tables, {}, chain), ended))
  }
}
