/** The one-line statements over tuples (src/transpiler/tuple.go):
    declarations `let [mut] name: (t1, t2) = value` and assignments
    `name = value`.
 */
module TupleStatements {
  import opened Results
  import opened GoText
  import opened Symbols
  import opened Items
  import Identifiers
  import TuplePatterns
  import LineKinds
  import Expressions

  /** Where a tuple declaration's annotation lies: after the last ':' and
      before the first '=' that are outside string literals; `colon` is 0
      when there is no such ':'. */
  datatype Bounds = Bounds(colon: nat, eq: nat)

  /** The number of quotes in a concatenation adds up. */
  lemma {:induction false} QuotesAppend(a: string, b: string)
    ensures LineKinds.Quotes(a + b) == LineKinds.Quotes(a) + LineKinds.Quotes(b)
    decreases |a|
  {
    if |a| > 0 {
      assert (a + b)[1..] == a[1..] + b;
      QuotesAppend(a[1..], b);
    } else {
      assert a + b == b;
    }
  }

  /** One more character read: the quote count grows by one exactly at a
      quote. */
  lemma QuotesStep(line: string, i: nat)
    requires i < |line|
    ensures LineKinds.Quotes(line[..i + 1]) == LineKinds.Quotes(line[..i]) + (if line[i] == '"' then 1 else 0)
  {
    assert line[..i + 1] == line[..i] + [line[i]];
    QuotesAppend(line[..i], [line[i]]);
    assert [line[i]][1..] == [];
  }

  /** The scan of a tuple declaration from index `i`, with `inString`
      telling whether a string literal is open there. */
  function AnnotationBounds(line: string, i: nat, inString: bool, colon: nat): (r: Option<Bounds>)
    requires i <= |line| && colon <= i
    ensures r.Some? ==> var b := r.value;
      i <= b.eq < |line| && line[b.eq] == '=' && b.colon <= b.eq
      && (b.colon == colon || (i <= b.colon && line[b.colon] == ':'))
    decreases |line| - i
  {
    if i == |line| then None
    else
      var open := if line[i] == '"' then !inString else inString;
      if !open && line[i] == '=' then Some(Bounds(colon, i))
      else
        var colon' := if !open && line[i] == ':' then i else colon;
        AnnotationBounds(line, i + 1, open, colon')
  }

  /** The '=' the scan stops at is the first one outside string literals,
      and the ':' it keeps is outside string literals too; when it finds
      none, every '=' is inside a literal. */
  lemma {:induction false} BoundsOutsideStrings(line: string, i: nat, inString: bool, colon: nat)
    requires i <= |line| && colon <= i
    requires inString == (LineKinds.Quotes(line[..i]) % 2 == 1)
    ensures var r := AnnotationBounds(line, i, inString, colon);
      r.Some? ==>
        LineKinds.Quotes(line[..r.value.eq]) % 2 == 0
        && (r.value.colon == colon || LineKinds.Quotes(line[..r.value.colon]) % 2 == 0)
        && forall j :: i <= j < r.value.eq && line[j] == '=' ==> LineKinds.Quotes(line[..j]) % 2 == 1
    ensures AnnotationBounds(line, i, inString, colon).None? ==>
      forall j :: i <= j < |line| && line[j] == '=' ==> LineKinds.Quotes(line[..j]) % 2 == 1
    decreases |line| - i
  {
    if i < |line| {
      var open := if line[i] == '"' then !inString else inString;
      QuotesStep(line, i);
      if !(!open && line[i] == '=') {
        var colon' := if !open && line[i] == ':' then i else colon;
        BoundsOutsideStrings(line, i + 1, open, colon');
      }
    }
  }

  /** Where the annotation of a tuple declaration lies, scanning the
      whole line. */
  function DeclarationBounds(line: string): (r: Option<Bounds>)
    ensures r.Some? ==> r.value.colon <= r.value.eq < |line|
  {
    AnnotationBounds(line, 0, false, 0)
  }

  /** The scan finds a place for the annotation exactly when the line has
      an '=' outside string literals, the same test the line classifier
      uses to call a line a statement. */
  lemma BoundsFoundIff(line: string)
    ensures DeclarationBounds(line).Some? <==> LineKinds.AssignsOutsideString(line)
  {
    assert line[..0] == [];
    BoundsOutsideStrings(line, 0, false, 0);
    if DeclarationBounds(line).Some? {
      var k := DeclarationBounds(line).value.eq;
      assert 0 <= k < |line| && line[k] == '=' && LineKinds.Quotes(line[..k]) % 2 == 0;
    }
  }

  /** Reads `let [mut] name: (t1, …, tn) = value`.  The name must be new to
      all four tables; the pattern is the text between the last ':' and
      the first '=' outside string literals; the value is a tuple
      expression that fits the pattern.  The tuple is then recorded. */
  function ParseTupleDeclaration(line: string, tables: Tables, illegal: set<string>, fuel: nat, lineNum: int)
    : (r: Result<Step>)
    ensures r.Ok? ==> r.value.item.TupleDeclaration?
    ensures r.Ok? ==> var t := r.value.item.t; var ws := Fields(line);
      (|ws| >= 2 && ws[0] == "let" && LineKinds.TypeIndex(ws) - 1 < |ws|
      && ws[LineKinds.TypeIndex(ws) - 1] == t.identifier + ":"
      && (t.mut <==> ws[1] == "mut")
      && !Declared(tables, t.identifier) && t.identifier !in illegal)
    ensures r.Ok? ==> var b := DeclarationBounds(line);
      (b.Some? && b.value.colon < b.value.eq
      && TupleValueFor(line, b.value, tables, fuel, lineNum) == Ok(Annotated(r.value.item.t.pattern, r.value.item.tupExpr)))
    ensures DeclarationBounds(line).None? ==> r.Err?
    ensures r.Ok? ==> r.value.tables == tables.(tuples := tables.tuples[r.value.item.t.identifier := r.value.item.t])
    ensures r.Err? ==> r.line == lineNum
  {
    var words := Fields(line);
    if |words| == 0 || words[0] != "let" then Err(lineNum, "variable assignment without let keyword")
    else if |words| < 2 || LineKinds.TypeIndex(words) - 1 >= |words| then Err(lineNum, "index out of range")
    else
      var id :- Identifiers.ParseIdentifier(words[LineKinds.TypeIndex(words) - 1], illegal, lineNum);
      if Declared(tables, id) then Err(lineNum, id + " already defined in this scope")
      else
        var bounds := DeclarationBounds(line);
        if bounds.None? then Err(lineNum, "found no equals sign in assignment to tuple")
        else if bounds.value.colon + 1 > bounds.value.eq then Err(lineNum, "slice bounds out of range")
        else
          var v :- TupleValueFor(line, bounds.value, tables, fuel, lineNum);
          var t := Tuple(id, v.pattern, words[1] == "mut");
          Ok(Step(TupleDeclaration(t, v.value), tables.(tuples := tables.tuples[id := t])))
  }

  /** The annotation of a tuple declaration and its value. */
  datatype Annotated = Annotated(pattern: TuplePattern, value: TupleExpression)

  /** The pattern between the `colon` and `eq` bounds of a declaration,
      and the tuple expression after `eq`, which must fit it. */
  function TupleValueFor(line: string, b: Bounds, tables: Tables, fuel: nat, lineNum: int): (r: Result<Annotated>)
    requires b.colon < b.eq < |line|
    ensures r.Ok? ==>
      TuplePatterns.ParseTuplePattern(line[b.colon + 1..b.eq], lineNum) == Ok(r.value.pattern)
      && Expressions.ParseTupleExpression(line[b.eq + 1..], r.value.pattern, tables, fuel, lineNum) == Ok(r.value.value)
    ensures r.Err? ==> r.line == lineNum
  {
    var pattern :- TuplePatterns.ParseTuplePattern(line[b.colon + 1..b.eq], lineNum);
    var value :- Expressions.ParseTupleExpression(line[b.eq + 1..], pattern, tables, fuel, lineNum);
    Ok(Annotated(pattern, value))
  }

  /** A line without an '=' outside string literals is never a tuple
      declaration. */
  lemma TupleDeclarationNeedsEquals(line: string, tables: Tables, illegal: set<string>, fuel: nat, lineNum: int)
    requires !LineKinds.AssignsOutsideString(line)
    ensures ParseTupleDeclaration(line, tables, illegal, fuel, lineNum).Err?
  {
    BoundsFoundIff(line);
  }

  /** A tuple declaration only adds its own name to the tables. */
  lemma TupleDeclarationExtends(line: string, tables: Tables, illegal: set<string>, fuel: nat, lineNum: int)
    requires ParseTupleDeclaration(line, tables, illegal, fuel, lineNum).Ok?
    ensures var s := ParseTupleDeclaration(line, tables, illegal, fuel, lineNum).value;
      Extends(s.tables, tables) && s.item.TupleDeclaration? && s.tables.tuples.Keys == tables.tuples.Keys + {s.item.t.identifier}
  {
  }

  /** A successful tuple declaration cannot be repeated in the tables it
      produced. */
  lemma TupleDeclarationNotRepeatable(line: string, tables: Tables, illegal: set<string>, fuel: nat, lineNum: int)
    requires ParseTupleDeclaration(line, tables, illegal, fuel, lineNum).Ok?
    ensures ParseTupleDeclaration(line, ParseTupleDeclaration(line, tables, illegal, fuel, lineNum).value.tables,
                                  illegal, fuel, lineNum).Err?
  {
  }

  /** The name a tuple assignment assigns to: the trimmed text before the
      first '='. */
  function AssignedName(line: string): string {
    Trim(line[..FindFrom(line, "=", 0)])
  }

  /** Reads `name = value` for a tuple.  The tuple must be in scope and
      mutable, and the value must fit its pattern. */
  function ParseTupleAssignment(line: string, tables: Tables, fuel: nat, lineNum: int): (r: Result<Step>)
    ensures r.Ok? ==> var id := AssignedName(line); var k := FindFrom(line, "=", 0);
      (k < |line| - 1 && id in tables.tuples && tables.tuples[id].mut
      && r.value.item.TupleAssignment? && r.value.item.t == tables.tuples[id]
      && Expressions.ParseTupleExpression(line[k + 1..], tables.tuples[id].pattern, tables, fuel, lineNum)
         == Ok(r.value.item.tupExpr))
    ensures var id := AssignedName(line); id in tables.tuples && !tables.tuples[id].mut ==> r.Err?
    ensures FindFrom(line, "=", 0) == |line| ==> r.Err?
    ensures r.Ok? ==> r.value.tables == tables
    ensures r.Err? ==> r.line == lineNum
  {
    var k := FindFrom(line, "=", 0);
    if k == |line| then Err(lineNum, "found no equals sign in tuple assignment")
    else
      var id := Trim(line[..k]);
      if id !in tables.tuples || !tables.tuples[id].mut then
        Err(lineNum, "attempt to assign new value to immutable tuple " + id)
      else if k == |line| - 1 then Err(lineNum, "no value assigned to " + id + " in assignment")
      else
        var t := tables.tuples[id];
        var value :- Expressions.ParseTupleExpression(line[k + 1..], t.pattern, tables, fuel, lineNum);
        Ok(Step(TupleAssignment(t, value), tables))
  }

  /** A tuple declared without `mut` can never be assigned to. */
  lemma ImmutableTupleNotAssignable(decl: string, tables: Tables, illegal: set<string>, assign: string,
                                    fuel: nat, lineNum: int, lineNum': int)
    requires ParseTupleDeclaration(decl, tables, illegal, fuel, lineNum).Ok?
    requires Fields(decl)[1] != "mut"
    requires AssignedName(assign) == ParseTupleDeclaration(decl, tables, illegal, fuel, lineNum).value.item.t.identifier
    ensures ParseTupleAssignment(assign, ParseTupleDeclaration(decl, tables, illegal, fuel, lineNum).value.tables,
                                 fuel, lineNum').Err?
  {
  }
}
