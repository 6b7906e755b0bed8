/** The body of a function whose `= {` opens a block instead of giving the
    value on the header line (src/transpiler/parser.go,
    src/transpiler/collections.go, src/transpiler/tuple.go).  The lines at
    depth one of the block are read in order: declarations among them are
    parsed into a scratch copy of the tables, other statements are passed
    over, and the one line that is not a statement is the value.  Anything
    but a blank line after the value is dead code.  The caller's tables
    are left as they were.
 */
module Blocks {
  import opened Results
  import opened GoText
  import opened Types
  import opened Symbols
  import Brackets
  import LineKinds
  import Expressions
  import Statements
  import ArrayStatements
  import TupleStatements

  /** Which value a block yields.  An array block does not parse tuple
      declarations and does not allow even a blank line after its value. */
  datatype BlockKind = PlainBlock | ArrayBlock | TupleBlock

  /** The line holding a block's value. */
  datatype Found = Found(text: string, lineNum: nat)

  /** What the scan of a block has gathered: the value line if seen, the
      scratch tables, and the arities of the tuple patterns read. */
  datatype Scan = Scan(found: Option<Found>, tables: Tables, arities: set<nat>)

  /** A block's value with the tuple arities read while finding it. */
  datatype Block<T> = Block(value: T, arities: set<nat>)

  /** Opened minus closed braces over `lines[start..end]`. */
  function Depth(lines: seq<string>, start: nat, end: nat): int
    requires end <= |lines|
    decreases end
  {
    if end <= start then 0 else Depth(lines, start, end - 1) + Brackets.Net('{', '}', lines[end - 1])
  }

  /** `f` is a line at depth one of the block opened at `start` that is not
      a statement. */
  predicate FoundAt(lines: seq<string>, start: nat, f: Found) {
    start <= f.lineNum < |lines| && lines[f.lineNum] == f.text
    && !LineKinds.IsStatement(f.text) && Depth(lines, start, f.lineNum + 1) == 1
  }

  /** Parses a declaration met inside a block into the scratch tables;
      other lines leave them alone. */
  function Declare(line: string, item: LineKinds.ItemType, kind: BlockKind, s: Scan, illegal: set<string>,
                   fuel: nat, n: nat): (r: Result<Scan>)
    ensures r.Ok? ==> Extends(r.value.tables, s.tables) && s.arities <= r.value.arities
    ensures r.Ok? ==> r.value.found == s.found
    ensures r.Ok? && !(item in {LineKinds.VariableDeclaration, LineKinds.ArrDeclaration, LineKinds.TupDeclaration}) ==>
      r.value == s
    ensures r.Err? ==> r.line == n
  {
    if item == LineKinds.VariableDeclaration then DeclareVariable(line, s, illegal, fuel, n)
    else if item == LineKinds.ArrDeclaration then DeclareArray(line, s, illegal, fuel, n)
    else if item == LineKinds.TupDeclaration && kind != ArrayBlock then DeclareTuple(line, s, illegal, fuel, n)
    else Ok(s)
  }

  function DeclareVariable(line: string, s: Scan, illegal: set<string>, fuel: nat, n: nat): (r: Result<Scan>)
    ensures r.Ok? ==> Extends(r.value.tables, s.tables) && r.value.arities == s.arities && r.value.found == s.found
    ensures r.Err? ==> r.line == n
  {
    var step :- Statements.ParseVariableDeclaration(line, s.tables, illegal, fuel, n);
    AddVariableExtends(s.tables, step.item.v);
    Ok(s.(tables := step.tables))
  }

  function DeclareArray(line: string, s: Scan, illegal: set<string>, fuel: nat, n: nat): (r: Result<Scan>)
    ensures r.Ok? ==> Extends(r.value.tables, s.tables) && r.value.arities == s.arities && r.value.found == s.found
    ensures r.Err? ==> r.line == n
  {
    var step :- ArrayStatements.ParseArrayDeclaration(line, s.tables, illegal, fuel, n);
    AddArrayExtends(s.tables, step.item.arr);
    Ok(s.(tables := step.tables))
  }

  function DeclareTuple(line: string, s: Scan, illegal: set<string>, fuel: nat, n: nat): (r: Result<Scan>)
    ensures r.Ok? ==> Extends(r.value.tables, s.tables) && s.arities <= r.value.arities && r.value.found == s.found
    ensures r.Err? ==> r.line == n
  {
    var step :- TupleStatements.ParseTupleDeclaration(line, s.tables, illegal, fuel, n);
    TupleStatements.TupleDeclarationExtends(line, s.tables, illegal, fuel, n);
    var arity: nat := |step.item.t.pattern.dataTypes|;
    Ok(s.(tables := step.tables, arities := s.arities + {arity}))
  }

  /** The scan of a block from line `n`, where the depth so far is `depth`.
      It stops at the first line that brings the depth back to zero. */
  function ScanBlock(lines: seq<string>, start: nat, n: nat, depth: int, kind: BlockKind, s: Scan,
                     illegal: set<string>, fuel: nat): (r: Result<Scan>)
    requires start <= n <= |lines|
    requires depth == Depth(lines, start, n)
    requires s.found.Some? ==> FoundAt(lines, start, s.found.value)
    ensures r.Ok? ==> Extends(r.value.tables, s.tables) && s.arities <= r.value.arities
    ensures r.Ok? && s.found.Some? ==> r.value.found == s.found
    ensures r.Ok? && r.value.found.Some? ==> FoundAt(lines, start, r.value.found.value)
    decreases |lines| - n, 1
  {
    if n == |lines| then Ok(s)
    else
      var depth' := depth + Brackets.Net('{', '}', lines[n]);
      DepthStep(lines, start, n);
      if depth' == 0 then Ok(s)
      else if depth' != 1 then ScanBlock(lines, start, n + 1, depth', kind, s, illegal, fuel)
      else ScanLine(lines, start, n, kind, s, illegal, fuel)
  }

  /** The scan from a line at depth one: a declaration is parsed into the
      scratch tables, the first line that is not a statement is the value
      line, and any line but a blank one after the value line is an
      error. */
  function ScanLine(lines: seq<string>, start: nat, n: nat, kind: BlockKind, s: Scan, illegal: set<string>,
                    fuel: nat): (r: Result<Scan>)
    requires start <= n < |lines|
    requires Depth(lines, start, n + 1) == 1
    requires s.found.Some? ==> FoundAt(lines, start, s.found.value)
    ensures r.Ok? ==> Extends(r.value.tables, s.tables) && s.arities <= r.value.arities
    ensures r.Ok? && s.found.Some? ==> r.value.found == s.found
    ensures r.Ok? && r.value.found.Some? ==> FoundAt(lines, start, r.value.found.value)
    ensures s.found.Some? && kind == ArrayBlock ==> r.Err?
    decreases |lines| - n, 0
  {
    var line := lines[n];
    var item :- LineKinds.GetItemType(line, s.tables, n);
    var s' :- Declare(line, item, kind, s, illegal, fuel, n);
    if s'.found.Some? && (kind == ArrayBlock || |Trim(line)| > 0) then
      Err(n, "found dead code after expression in multi-line expression")
    else
      var next := if s'.found.None? && !LineKinds.IsStatement(line) then s'.(found := Some(Found(line, n))) else s';
      assert next.found.Some? ==> FoundAt(lines, start, next.found.value);
      var r :- ScanBlock(lines, start, n + 1, 1, kind, next, illegal, fuel);
      ExtendsTransitive(r.tables, s'.tables, s.tables);
      Ok(r)
  }

  lemma DepthStep(lines: seq<string>, start: nat, n: nat)
    requires start <= n < |lines|
    ensures Depth(lines, start, n + 1) == Depth(lines, start, n) + Brackets.Net('{', '}', lines[n])
  {
  }

  /** The scan of a whole block opened on line `lineNum`. */
  function ScanFrom(lines: seq<string>, lineNum: nat, kind: BlockKind, tables: Tables, illegal: set<string>, fuel: nat)
    : (r: Result<Scan>)
    ensures r.Ok? ==> Extends(r.value.tables, tables)
    ensures r.Ok? && r.value.found.Some? ==> FoundAt(lines, lineNum, r.value.found.value)
  {
    if lineNum > |lines| then Ok(Scan(None, tables, {}))
    else
      ScanBlock(lines, lineNum, lineNum, 0, kind, Scan(None, tables, {}), illegal, fuel)
  }

  /** A block yielding a primitive value.  With no value line it yields an
      empty IO expression, which only a function returning IO accepts. */
  function MultiLineExpression(lines: seq<string>, lineNum: nat, tables: Tables, illegal: set<string>, fuel: nat)
    : (r: Result<Block<Expression>>)
    ensures r.Ok? ==> var s := ScanFrom(lines, lineNum, PlainBlock, tables, illegal, fuel);
      (s.Ok? && r.value.arities == s.value.arities
      && (s.value.found.None? ==> r.value.value == Expression([], IO))
      && (s.value.found.Some? ==>
            Expressions.ParseExpression(s.value.found.value.text, s.value.tables, fuel, s.value.found.value.lineNum)
              == Ok(r.value.value)))
  {
    var s :- ScanFrom(lines, lineNum, PlainBlock, tables, illegal, fuel);
    match s.found
    case None => Ok(Block(Expression([], IO), s.arities))
    case Some(f) =>
      var e :- Expressions.ParseExpression(f.text, s.tables, fuel, f.lineNum);
      Ok(Block(e, s.arities))
  }

  /** A block yielding an array of base type `expected`; a block with no
      value line is an error. */
  function MultiLineArrayExpression(lines: seq<string>, lineNum: nat, expected: PrimType, tables: Tables,
                                    illegal: set<string>, fuel: nat): (r: Result<Block<ArrayExpression>>)
    ensures r.Ok? ==> var s := ScanFrom(lines, lineNum, ArrayBlock, tables, illegal, fuel);
      (s.Ok? && s.value.found.Some? && r.value.arities == s.value.arities
      && Expressions.ParseArrayExpression(s.value.found.value.text, expected, s.value.tables, fuel,
                                          s.value.found.value.lineNum) == Ok(r.value.value))
    ensures ScanFrom(lines, lineNum, ArrayBlock, tables, illegal, fuel) == Ok(Scan(None, tables, {})) ==> r.Err?
  {
    var s :- ScanFrom(lines, lineNum, ArrayBlock, tables, illegal, fuel);
    match s.found
    case None => Err(lineNum, "found no returned value in function")
    case Some(f) =>
      var e :- Expressions.ParseArrayExpression(f.text, expected, s.tables, fuel, f.lineNum);
      Ok(Block(e, s.arities))
  }

  /** A block yielding a tuple that fits `pattern`; a block with no value
      line is an error. */
  function MultiLineTupleExpression(lines: seq<string>, lineNum: nat, pattern: TuplePattern, tables: Tables,
                                    illegal: set<string>, fuel: nat): (r: Result<Block<TupleExpression>>)
    ensures r.Ok? ==> var s := ScanFrom(lines, lineNum, TupleBlock, tables, illegal, fuel);
      (s.Ok? && s.value.found.Some? && r.value.arities == s.value.arities
      && Expressions.ParseTupleExpression(s.value.found.value.text, pattern, s.value.tables, fuel,
                                          s.value.found.value.lineNum) == Ok(r.value.value))
    ensures ScanFrom(lines, lineNum, TupleBlock, tables, illegal, fuel) == Ok(Scan(None, tables, {})) ==> r.Err?
  {
    var s :- ScanFrom(lines, lineNum, TupleBlock, tables, illegal, fuel);
    match s.found
    case None => Err(lineNum, "found no returned value in tuple block")
    case Some(f) =>
      var e :- Expressions.ParseTupleExpression(f.text, pattern, s.tables, fuel, f.lineNum);
      Ok(Block(e, s.arities))
  }
}
