/** Tuple annotations and tuple indexing (src/transpiler/tuple.go): reading
    a pattern such as `(int, string)`, matching parsed values against it,
    and recognising and rewriting `t.1` for Go's generated tuple structs.
    The last two are defined in the source but never called by the live
    code: `Expression.transpile` (src/transpiler/transpiler.go:14-25)
    writes a tuple index as it was read.
 */
module TuplePatterns {
  import opened Results
  import opened GoText
  import opened Types
  import opened Symbols
  import Identifiers

  /** The names of a list of types, in order. */
  function NamesOf(ts: seq<PrimType>): (r: seq<string>)
    ensures |r| == |ts|
    ensures forall i :: 0 <= i < |ts| ==> r[i] == TypeName(ts[i])
  {
    if |ts| == 0 then [] else [TypeName(ts[0])] + NamesOf(ts[1..])
  }

  /** The Stella text of a tuple annotation. */
  function PatternText(p: TuplePattern): string {
    "(" + Join(NamesOf(p.dataTypes), ", ") + ")"
  }

  /** Reads each name of `names` as a type. */
  function ReadTypes(names: seq<string>, line: int): (r: Result<seq<PrimType>>)
    ensures r.Ok? ==> |r.value| == |names|
    ensures r.Ok? ==> forall i :: 0 <= i < |names| ==> TypeName(r.value[i]) == names[i]
    ensures r.Ok? <==> forall i :: 0 <= i < |names| ==> names[i] in TypeNames
    ensures r.Ok? ==> NamesOf(r.value) == names
    ensures r.Err? ==> r.line == line
  {
    if |names| == 0 then Ok([])
    else
      var t :- ReadType(names[0], line);
      var rest :- ReadTypes(names[1..], line);
      assert NamesOf([t] + rest) == [TypeName(t)] + NamesOf(rest);
      Ok([t] + rest)
  }

  /** Reads a tuple annotation: parentheses around type names separated by
      ", ".  The caller records the arity for the generated Go code. */
  function ParseTuplePattern(pattern: string, line: int): (r: Result<TuplePattern>)
    ensures r.Ok? ==> var p := Trim(pattern);
      |p| >= 2 && p[0] == '(' && p[|p| - 1] == ')'
      && NamesOf(r.value.dataTypes) == Split(p[1..|p| - 1], ", ")
    ensures r.Err? ==> r.line == line
  {
    PatternInside(Trim(pattern), line)
  }

  /** `ParseTuplePattern` once the annotation is trimmed. */
  function PatternInside(p: string, line: int): (r: Result<TuplePattern>)
    ensures r.Ok? ==> |p| >= 2 && p[0] == '(' && p[|p| - 1] == ')'
    ensures r.Ok? ==> NamesOf(r.value.dataTypes) == Split(p[1..|p| - 1], ", ")
    ensures r.Err? ==> r.line == line
  {
    if |p| < 2 then Err(line, "tuple pattern does not contain '()'")
    else if !(p[0] == '(' && p[|p| - 1] == ')') then
      Err(line, "tuple pattern is not enclosed by parentheses")
    else
      var names := Split(p[1..|p| - 1], ", ");
      match ReadTypes(names, line)
      case Err(l, m) => Err(l, m)
      case Ok(ts) => Ok(TuplePattern(ts))
  }

  /** Reading the text of a non-empty pattern gives the pattern back. */
  lemma PatternRoundTrip(p: TuplePattern, line: int)
    requires |p.dataTypes| > 0
    ensures ParseTuplePattern(PatternText(p), line) == Ok(p)
  {
    var names := NamesOf(p.dataTypes);
    var body := Join(names, ", ");
    var text := PatternText(p);
    assert forall i :: 0 <= i < |names| ==> !HasChar(names[i], ',') by {
      forall i | 0 <= i < |names| ensures !HasChar(names[i], ',') {
        match p.dataTypes[i]
        case Int => case Float => case Bool => case Byte => case String => case IO =>
      }
    }
    SplitJoin(names, ", ");
    NoOuterSpaces(text);
    assert text[1..|text| - 1] == body;
    ReadNamesOf(p.dataTypes, line);
  }

  /** Reading the names of some types gives the types back. */
  lemma {:induction false} ReadNamesOf(ts: seq<PrimType>, line: int)
    ensures ReadTypes(NamesOf(ts), line) == Ok(ts)
    decreases |ts|
  {
    if |ts| > 0 {
      ReadTypeName(ts[0], line);
      assert NamesOf(ts)[1..] == NamesOf(ts[1..]);
      ReadNamesOf(ts[1..], line);
      assert [ts[0]] + ts[1..] == ts;
    }
  }

  /** Trimming leaves a text alone that neither starts nor ends with a space. */
  lemma NoOuterSpaces(s: string)
    requires |s| > 0 && s[0] != ' ' && s[|s| - 1] != ' '
    ensures Trim(s) == s
  {
  }

  /** An empty pattern `()` is rejected: splitting the empty text gives one
      empty name. */
  lemma EmptyPatternRejected(line: int)
    ensures ParseTuplePattern("()", line).Err?
  {
    NoOuterSpaces("()");
    assert "()"[1..1] == "";
    assert FindFrom("", ", ", 0) == 0;
    assert Split("", ", ") == [""];
  }

  /** Checks parsed tuple elements against a pattern: equal arity and equal
      types position by position. */
  function MatchTuplePattern(values: seq<Expression>, pattern: TuplePattern, line: int): (r: Result<()>)
    ensures r.Ok? <==> |values| == |pattern.dataTypes|
                       && forall i :: 0 <= i < |values| ==> values[i].dataType == pattern.dataTypes[i]
    ensures r.Err? ==> r.line == line
  {
    if |values| != |pattern.dataTypes| then
      Err(line, "tuple does not have the same length as its pattern")
    else MatchFrom(values, pattern, 0, line)
  }

  function MatchFrom(values: seq<Expression>, pattern: TuplePattern, i: nat, line: int): (r: Result<()>)
    requires i <= |values| == |pattern.dataTypes|
    ensures r.Ok? <==> forall j :: i <= j < |values| ==> values[j].dataType == pattern.dataTypes[j]
    ensures r.Err? ==> r.line == line
    decreases |values| - i
  {
    if i == |values| then Ok(())
    else if values[i].dataType != pattern.dataTypes[i] then
      Err(line, "tuple element has the wrong data type")
    else MatchFrom(values, pattern, i + 1, line)
  }

  // ---------------------------------------------------------------------
  // Tuple indexing: the source's rewrite of `t.1` to `t.v1`, which no live
  // code calls

  /** Whether a token is a tuple index such as `t.1`: it starts with a
      letter, and outside string and byte literals a '.' comes before any
      '('. */
  function IsTupleIndexing(item: string): (r: bool)
    requires |item| > 0
    ensures r ==> Identifiers.ParseCharType(item[0]) == Identifiers.Letter
  {
    Identifiers.ParseCharType(item[0]) == Identifiers.Letter && DotFirst(item, 0, false, false)
  }

  /** The scan of `IsTupleIndexing` from index `i`, inside a string or a
      byte literal or neither. */
  function DotFirst(item: string, i: nat, inString: bool, inByte: bool): bool
    requires i <= |item|
    decreases |item| - i
  {
    if i == |item| then false
    else
      var c := item[i];
      if inString then DotFirst(item, i + 1, c != '"', false)
      else if inByte then DotFirst(item, i + 1, false, c != '\'')
      else if c == '.' then true
      else if c == '(' then false
      else DotFirst(item, i + 1, c == '"', c == '\'')
  }

  /** Outside literals, the first of '.' and '(' decides: a tuple index is
      a name, a dot, and anything after it. */
  lemma {:induction false} NameDotIsIndexing(w: string, rest: string)
    requires Identifiers.IsName(w)
    ensures IsTupleIndexing(w + "." + rest)
    ensures !IsTupleIndexing(w + "(" + rest)
  {
    NameScan(w, "." + rest, 0);
    NameScan(w, "(" + rest, 0);
    assert (w + "." + rest)[|w|] == '.';
    assert (w + "(" + rest)[|w|] == '(';
    assert w + "." + rest == w + ("." + rest);
    assert w + "(" + rest == w + ("(" + rest);
  }

  lemma {:induction false} NameScan(w: string, tail: string, i: nat)
    requires Identifiers.IsName(w) && i <= |w|
    ensures DotFirst(w + tail, i, false, false) == DotFirst(w + tail, |w|, false, false)
    decreases |w| - i
  {
    if i < |w| {
      var c := (w + tail)[i];
      assert c == w[i] && Identifiers.IsWordChar(c);
      NameScan(w, tail, i + 1);
    }
  }

  /** Renders a tuple index for Go: a "v" goes in after the first '.', so
      that `t.1` names the field `v1`. */
  function TranspileTupleIndexing(item: string): (r: string)
    ensures var k := FindFrom(item, ".", 0);
      k < |item| ==> r == item[..k + 1] + "v" + item[k + 1..]
    ensures FindFrom(item, ".", 0) == |item| ==> r == item
  {
    InsertAfterDot(item, 0)
  }

  function InsertAfterDot(item: string, i: nat): (r: string)
    requires i <= |item|
    requires forall j :: 0 <= j < i ==> item[j] != '.'
    ensures var k := FindFrom(item, ".", i);
      k < |item| ==> r == item[i..k + 1] + "v" + item[k + 1..]
    ensures FindFrom(item, ".", i) == |item| ==> r == item[i..]
    decreases |item| - i
  {
    if i == |item| then ""
    else if item[i] == '.' then
      assert OccursAt(item, ".", i) by { assert item[i..i + 1] == "."; }
      [item[i]] + "v" + item[i + 1..]
    else
      assert !OccursAt(item, ".", i) by {
        if i + 1 <= |item| { assert item[i..i + 1][0] == item[i]; }
      }
      var rest := InsertAfterDot(item, i + 1);
      assert item[i..] == [item[i]] + item[i + 1..];
      [item[i]] + rest
  }

  /** Deleting the inserted "v" gives the token back. */
  lemma TupleIndexingReversible(item: string)
    requires FindFrom(item, ".", 0) < |item|
    ensures var k := FindFrom(item, ".", 0); var r := TranspileTupleIndexing(item);
      |r| == |item| + 1 && r[k + 1] == 'v' && r[..k + 1] + r[k + 2..] == item
  {
    var k := FindFrom(item, ".", 0);
    var r := TranspileTupleIndexing(item);
    assert r[..k + 1] == item[..k + 1];
    assert r[k + 2..] == item[k + 1..];
    assert item[..k + 1] + item[k + 1..] == item;
  }
}
