/** The one-line statements over arrays (src/transpiler/collections.go):
    declarations, assignment of a whole array, and assignment to one
    element.
 */
module ArrayStatements {
  import opened Results
  import opened GoText
  import opened Types
  import opened Symbols
  import opened Items
  import Identifiers
  import ArrayTypes
  import LineKinds
  import Expressions
  import Statements

  /** True when `name` is already a variable, function or array.  Array
      declarations look in these three tables only: a tuple of the same
      name does not stop them. */
  predicate ArrayNameTaken(tables: Tables, name: string) {
    name in tables.vars || name in tables.functions || name in tables.arrays
  }

  /** Reads `let [mut] name: base[n] = value`.  The annotation is read
      before the name; the name must not be a variable, function or array;
      the value is an array expression whose base type and length agree
      with the annotation.  The array is then recorded. */
  function ParseArrayDeclaration(line: string, tables: Tables, illegal: set<string>, fuel: nat, lineNum: int)
    : (r: Result<Step>)
    ensures r.Ok? ==> r.value.item.ArrayDeclaration?
    ensures r.Ok? ==> var a := r.value.item.arr; var ws := Fields(line);
      (|ws| >= 2 && ws[0] == "let" && LineKinds.TypeIndex(ws) + 1 < |ws|
      && ws[LineKinds.TypeIndex(ws) - 1] == a.identifier + ":"
      && ArrayTypes.ParseArrayType(ws[LineKinds.TypeIndex(ws)], lineNum) == Ok(a.dataType)
      && ws[LineKinds.TypeIndex(ws) + 1] == "="
      && (a.mut <==> ws[1] == "mut"))
    ensures r.Ok? ==> var a := r.value.item.arr; var ae := r.value.item.arrExpr;
      (!ArrayNameTaken(tables, a.identifier) && a.identifier !in illegal
      && |a.dataType.dimensions| > 0 && |ae.dataType.dimensions| > 0
      && ae.dataType.baseType == a.dataType.baseType
      && ae.dataType.dimensions[0] == a.dataType.dimensions[0]
      && Statements.EqualsIndex(line) < |line| - 1
      && Expressions.ParseArrayExpression(Trim(line[Statements.EqualsIndex(line) + 1..]), a.dataType.baseType,
                                          tables, fuel, lineNum) == Ok(ae))
    ensures r.Ok? ==> r.value.tables == tables.(arrays := tables.arrays[r.value.item.arr.identifier := r.value.item.arr])
    ensures r.Err? ==> r.line == lineNum
  {
    var a :- ArrayHeader(line, tables, illegal, lineNum);
    var found :- ArrayValueFor(line, a, tables, fuel, lineNum);
    Ok(Step(ArrayDeclaration(a, found), tables.(arrays := tables.arrays[a.identifier := a])))
  }

  /** The array an array declaration introduces, read from the words
      before its '=': the annotation first, then the name. */
  function ArrayHeader(line: string, tables: Tables, illegal: set<string>, lineNum: int): (r: Result<Array>)
    ensures r.Ok? ==> var a := r.value; var ws := Fields(line);
      (|ws| >= 2 && ws[0] == "let" && LineKinds.TypeIndex(ws) + 1 < |ws|
      && ws[LineKinds.TypeIndex(ws) - 1] == a.identifier + ":"
      && ArrayTypes.ParseArrayType(ws[LineKinds.TypeIndex(ws)], lineNum) == Ok(a.dataType)
      && ws[LineKinds.TypeIndex(ws) + 1] == "="
      && (a.mut <==> ws[1] == "mut")
      && !ArrayNameTaken(tables, a.identifier) && a.identifier !in illegal)
    ensures r.Err? ==> r.line == lineNum
  {
    var words := Fields(line);
    if |words| == 0 then Err(lineNum, "parseArrayDeclaration() called on empty line")
    else if words[0] != "let" then Err(lineNum, "array declaration without let keyword at beginning of line")
    else if |words| == 1 then Err(lineNum, "array declaration on line with only let keyword")
    else
      var ti := LineKinds.TypeIndex(words);
      if ti >= |words| then Err(lineNum, "index out of range")
      else
        var expected :- ArrayTypes.ParseArrayType(words[ti], lineNum);
        var id :- Identifiers.ParseIdentifier(words[ti - 1], illegal, lineNum);
        if ArrayNameTaken(tables, id) then Err(lineNum, id + " already defined in this scope")
        else if ti + 1 >= |words| then Err(lineNum, "index out of range")
        else if words[ti + 1] != "=" then Err(lineNum, "expected = sign")
        else Ok(Array(id, expected, words[1] == "mut"))
  }

  /** The value of an array declaration: the array expression after the
      first '=', checked against the annotation of `a`. */
  function ArrayValueFor(line: string, a: Array, tables: Tables, fuel: nat, lineNum: int): (r: Result<ArrayExpression>)
    ensures r.Ok? ==>
      (|a.dataType.dimensions| > 0 && |r.value.dataType.dimensions| > 0
      && r.value.dataType.baseType == a.dataType.baseType
      && r.value.dataType.dimensions[0] == a.dataType.dimensions[0]
      && Statements.EqualsIndex(line) < |line| - 1
      && Expressions.ParseArrayExpression(Trim(line[Statements.EqualsIndex(line) + 1..]), a.dataType.baseType,
                                          tables, fuel, lineNum) == Ok(r.value))
    ensures r.Err? ==> r.line == lineNum
  {
    var eq := Statements.EqualsIndex(line);
    if eq >= |line| - 1 then Err(lineNum, "found no value assigned to array " + a.identifier + " in declaration statement")
    else
      var found :- Expressions.ParseArrayExpression(Trim(line[eq + 1..]), a.dataType.baseType, tables, fuel, lineNum);
      FitsAnnotation(found, a, lineNum)
  }

  /** An array value is accepted for `a` when its base type and its first
      size agree with the annotation. */
  function FitsAnnotation(found: ArrayExpression, a: Array, lineNum: int): (r: Result<ArrayExpression>)
    ensures r.Ok? <==>
      (found.dataType.baseType == a.dataType.baseType
      && |found.dataType.dimensions| > 0 && |a.dataType.dimensions| > 0
      && found.dataType.dimensions[0] == a.dataType.dimensions[0])
    ensures r.Ok? ==> r.value == found
    ensures r.Err? ==> r.line == lineNum
  {
    if found.dataType.baseType != a.dataType.baseType then Err(lineNum, "array of another base type")
    else if |found.dataType.dimensions| == 0 || |a.dataType.dimensions| == 0 then Err(lineNum, "index out of range")
    else if found.dataType.dimensions[0] != a.dataType.dimensions[0] then Err(lineNum, "array of another length")
    else Ok(found)
  }

  /** The tuple table plays no part in an array declaration: the outcome is
      the same whatever tuples are in scope, so an array may take the name
      of a tuple. */
  lemma ArrayDeclarationIgnoresTuples(line: string, tables: Tables, tuples: map<string, Tuple>, illegal: set<string>,
                                      fuel: nat, lineNum: int)
    requires ParseArrayDeclaration(line, tables, illegal, fuel, lineNum).Ok?
    requires Expressions.ParseArrayExpression(Trim(line[Statements.EqualsIndex(line) + 1..]),
               ParseArrayDeclaration(line, tables, illegal, fuel, lineNum).value.item.arr.dataType.baseType,
               tables.(tuples := tuples), fuel, lineNum)
             == Expressions.ParseArrayExpression(Trim(line[Statements.EqualsIndex(line) + 1..]),
               ParseArrayDeclaration(line, tables, illegal, fuel, lineNum).value.item.arr.dataType.baseType,
               tables, fuel, lineNum)
    ensures ParseArrayDeclaration(line, tables.(tuples := tuples), illegal, fuel, lineNum).Ok?
    ensures ParseArrayDeclaration(line, tables.(tuples := tuples), illegal, fuel, lineNum).value.item
         == ParseArrayDeclaration(line, tables, illegal, fuel, lineNum).value.item
  {
    var t := tables.(tuples := tuples);
    HeaderIgnoresTuples(line, tables, tuples, illegal, lineNum);
    var a := ArrayHeader(line, tables, illegal, lineNum).value;
    assert ArrayValueFor(line, a, t, fuel, lineNum) == ArrayValueFor(line, a, tables, fuel, lineNum);
  }

  lemma HeaderIgnoresTuples(line: string, tables: Tables, tuples: map<string, Tuple>, illegal: set<string>,
                            lineNum: int)
    ensures ArrayHeader(line, tables.(tuples := tuples), illegal, lineNum) == ArrayHeader(line, tables, illegal, lineNum)
  {
  }

  /** A successful array declaration cannot be repeated in the tables it
      produced. */
  lemma ArrayDeclarationNotRepeatable(line: string, tables: Tables, illegal: set<string>, fuel: nat, lineNum: int)
    requires ParseArrayDeclaration(line, tables, illegal, fuel, lineNum).Ok?
    ensures ParseArrayDeclaration(line, ParseArrayDeclaration(line, tables, illegal, fuel, lineNum).value.tables,
                                  illegal, fuel, lineNum).Err?
  {
    var a := ArrayHeader(line, tables, illegal, lineNum).value;
    var t := ParseArrayDeclaration(line, tables, illegal, fuel, lineNum).value.tables;
    assert t.arrays == tables.arrays[a.identifier := a];
    assert ArrayNameTaken(t, a.identifier);
    HeaderNameFromLine(line, tables, t, illegal, lineNum);
  }

  /** The name an array declaration introduces is read from the line alone. */
  lemma HeaderNameFromLine(line: string, t1: Tables, t2: Tables, illegal: set<string>, lineNum: int)
    ensures var h1 := ArrayHeader(line, t1, illegal, lineNum); var h2 := ArrayHeader(line, t2, illegal, lineNum);
      h1.Ok? && h2.Ok? ==> h1.value.identifier == h2.value.identifier
  {
    var h1 := ArrayHeader(line, t1, illegal, lineNum);
    var h2 := ArrayHeader(line, t2, illegal, lineNum);
    if h1.Ok? && h2.Ok? {
      var a, b := h1.value.identifier, h2.value.identifier;
      assert a + ":" == b + ":";
      assert a == (a + ":")[..|a|] && b == (b + ":")[..|b|];
    }
  }

  /** Reads `name = value` for a whole array.  The array must be in scope
      and mutable, and the value must have its base type and number of
      dimensions. */
  function ParseArrayAssignment(line: string, tables: Tables, fuel: nat, lineNum: int): (r: Result<Step>)
    ensures var ws := Fields(line);
      r.Ok? ==> (|ws| >= 3 && ws[0] in tables.arrays && tables.arrays[ws[0]].mut && ws[1] == "="
        && r.value.item.ArrayAssignment? && r.value.item.arr == tables.arrays[ws[0]]
        && r.value.item.arrExpr.dataType.baseType == tables.arrays[ws[0]].dataType.baseType
        && |r.value.item.arrExpr.dataType.dimensions| == |tables.arrays[ws[0]].dataType.dimensions|
        && Expressions.ParseArrayExpression(line[Statements.AfterEquals(line)..],
             tables.arrays[ws[0]].dataType.baseType, tables, fuel, lineNum) == Ok(r.value.item.arrExpr))
    ensures var ws := Fields(line);
      |ws| > 0 && ws[0] in tables.arrays && !tables.arrays[ws[0]].mut ==> r.Err?
    ensures r.Ok? ==> r.value.tables == tables
    ensures r.Err? ==> r.line == lineNum
  {
    var words := Fields(line);
    if |words| < 3 then Err(lineNum, "invalid assignment")
    else if words[0] !in tables.arrays then
      Err(lineNum, "first token of assignment does not match any arrays in scope")
    else
      var a := tables.arrays[words[0]];
      if !a.mut then Err(lineNum, "attempt to assign new value to immutable array " + a.identifier)
      else if words[1] != "=" then Err(lineNum, "invalid assignment: equals sign must come directly after variable")
      else
        var start := Statements.AfterEquals(line);
        if start == 0 || start == |line| - 1 then Err(lineNum, "found no expression in assignment")
        else
          var found :- Expressions.ParseArrayExpression(line[start..], a.dataType.baseType, tables, fuel, lineNum);
          if found.dataType.baseType != a.dataType.baseType then Err(lineNum, "array of another base type")
          else if |found.dataType.dimensions| != |a.dataType.dimensions| then
            Err(lineNum, "array value with another number of dimensions")
          else Ok(Step(ArrayAssignment(a, found), tables))
  }

  /** The array name at the head of an indexing: the characters before the
      first '['. */
  function IndexedName(w: string): (r: string)
    ensures r == w[..LineKinds.FirstOpenSquare(w, 0)]
    ensures '[' !in r
  {
    var k := LineKinds.FirstOpenSquare(w, 0);
    assert forall j :: 0 <= j < k ==> w[j] != '[';
    w[..k]
  }

  /** Reads `name[i] = value`.  The indexing is read first; the array must
      be in scope and mutable; the value must have the array's base type. */
  function ParseArrayIndexAssignment(line: string, tables: Tables, fuel: nat, lineNum: int): (r: Result<Step>)
    ensures r.Ok? ==> var ws := Fields(line);
      (|ws| > 0 && IndexedName(ws[0]) in tables.arrays && tables.arrays[IndexedName(ws[0])].mut
      && r.value.item.ArrayIndexAssignment?
      && Expressions.ParseArrayIndexing(ws[0], tables, fuel, lineNum) == Ok(r.value.item.arrIndex)
      && r.value.item.e.dataType == r.value.item.arrIndex.dataType.baseType
      && Expressions.ParseExpression(line[Statements.AfterEquals(line)..], tables, fuel, lineNum) == Ok(r.value.item.e))
    ensures var ws := Fields(line);
      |ws| > 0 && IndexedName(ws[0]) in tables.arrays && !tables.arrays[IndexedName(ws[0])].mut ==> r.Err?
    ensures r.Ok? ==> r.value.tables == tables
    ensures r.Err? ==> r.line == lineNum
  {
    var words := Fields(line);
    if |words| == 0 then Err(lineNum, "index out of range")
    else
      var id := IndexedName(words[0]);
      var indexing :- Expressions.ParseArrayIndexing(words[0], tables, fuel, lineNum);
      if id !in tables.arrays then Err(lineNum, "attempted assignment to array " + id + " not in scope")
      else if !tables.arrays[id].mut then
        Err(lineNum, "attempt to assign new value to element of immutable array " + id)
      else
        var start := Statements.AfterEquals(line);
        if start == 0 || start == |line| - 1 then Err(lineNum, "found no expression in assignment")
        else
          var e :- Expressions.ParseExpression(line[start..], tables, fuel, lineNum);
          if e.dataType != indexing.dataType.baseType then
            Err(lineNum, "data type of right hand side does not match the left hand side")
          else Ok(Step(ArrayIndexAssignment(indexing, e), tables))
  }

  /** An array declared without `mut` can never be assigned a new value,
      whatever the assignment line says. */
  lemma ImmutableArrayNotAssignable(decl: string, tables: Tables, illegal: set<string>, assign: string,
                                    fuel: nat, lineNum: int, lineNum': int)
    requires ParseArrayDeclaration(decl, tables, illegal, fuel, lineNum).Ok?
    requires Fields(decl)[1] != "mut"
    requires var a := ParseArrayDeclaration(decl, tables, illegal, fuel, lineNum).value.item.arr;
      |Fields(assign)| > 0 && Fields(assign)[0] == a.identifier
    ensures ParseArrayAssignment(assign, ParseArrayDeclaration(decl, tables, illegal, fuel, lineNum).value.tables,
                                 fuel, lineNum').Err?
  {
  }

  /** Nor can any element of it be assigned. */
  lemma ImmutableArrayElementNotAssignable(decl: string, tables: Tables, illegal: set<string>, assign: string,
                                           fuel: nat, lineNum: int, lineNum': int)
    requires ParseArrayDeclaration(decl, tables, illegal, fuel, lineNum).Ok?
    requires Fields(decl)[1] != "mut"
    requires var a := ParseArrayDeclaration(decl, tables, illegal, fuel, lineNum).value.item.arr;
      |Fields(assign)| > 0 && IndexedName(Fields(assign)[0]) == a.identifier
    ensures ParseArrayIndexAssignment(assign, ParseArrayDeclaration(decl, tables, illegal, fuel, lineNum).value.tables,
                                      fuel, lineNum').Err?
  {
  }
}
