/** Function declarations (src/transpiler/parser.go):
    `function name(p1: t1, p2: t2) -> t = { … }`.  The parameter list is
    split into fields, each field is read as a variable, array or tuple
    parameter, the return annotation picks one of three return domains,
    and the body is type-checked against it with the parameters in scope.
    The function is recorded only after its body is checked.
 */
module Functions {
  import opened Results
  import opened GoText
  import opened Types
  import opened Symbols
  import Identifiers
  import TuplePatterns
  import ArrayTypes
  import Expressions
  import Blocks

  // ---------------------------------------------------------------------
  // Splitting a parameter list into fields

  /** The split of a parameter list on the commas that are neither inside
      parentheses nor inside a string literal.  `cur` is the field read so
      far and `fields` the fields already cut; each field is trimmed of
      spaces.  A comma inside a string literal skips the end-of-input
      step, so a list ending inside a literal on a comma drops its last
      field. */
  function SplitParams(rest: string, inString: bool, depth: int, cur: string, fields: seq<string>): (r: seq<string>)
    ensures |fields| <= |r| && r[..|fields|] == fields
    decreases |rest|
  {
    if |rest| == 0 then fields
    else
      var c := rest[0];
      var open := if c == '"' then !inString else inString;
      if c == ',' && open then SplitParams(rest[1..], open, depth, cur + [c], fields)
      else
        var depth' := if open then depth else if c == '(' then depth + 1 else if c == ')' then depth - 1 else depth;
        var cut := c == ',' && depth == 0;
        var fields' := if cut && |cur| > 0 then fields + [Trim(cur)] else fields;
        var cur' := if cut then "" else cur + [c];
        if |rest| == 1 then (if |cur'| == 0 then fields' else fields' + [Trim(cur')])
        else SplitParams(rest[1..], open, depth', cur', fields')
  }

  /** The fields of a parameter list. */
  function ParamFields(params: string): seq<string> {
    SplitParams(params, false, 0, "", [])
  }

  /** A character that plays a part in splitting a parameter list. */
  predicate Special(c: char) {
    c == ',' || c == '(' || c == ')' || c == '"'
  }

  predicate NoSpecial(w: string) {
    forall i :: 0 <= i < |w| ==> !Special(w[i])
  }

  predicate Blank(s: string) {
    forall i :: 0 <= i < |s| ==> s[i] == ' '
  }

  /** A parameter as one writes it: no comma, parenthesis or quote, and no
      space at either end. */
  predicate PlainParam(w: string) {
    |w| > 0 && w[0] != ' ' && w[|w| - 1] != ' ' && NoSpecial(w)
  }

  lemma {:induction false} LeadingBlank(s: string, k: nat, i: nat)
    requires i <= k < |s| && s[k] != ' '
    requires forall j :: 0 <= j < k ==> s[j] == ' '
    ensures LeadingSpaces(s, i) == k
    decreases k - i
  {
    if i < k {
      LeadingBlank(s, k, i + 1);
    }
  }

  /** Spaces in front of a word with no outer spaces are trimmed away. */
  lemma TrimAfterBlank(sp: string, w: string)
    requires Blank(sp) && |w| > 0 && w[0] != ' ' && w[|w| - 1] != ' '
    ensures Trim(sp + w) == w
  {
    var s := sp + w;
    LeadingBlank(s, |sp|, 0);
    assert TrailingEnd(s, |s|, |sp|) == |s|;
    assert s[|sp|..|s|] == w;
  }

  /** Characters that are not special only extend the current field. */
  lemma {:induction false} PlainRun(w: string, tail: string, cur: string, fields: seq<string>)
    requires NoSpecial(w) && |tail| > 0
    ensures SplitParams(w + tail, false, 0, cur, fields) == SplitParams(tail, false, 0, cur + w, fields)
    decreases |w|
  {
    if |w| == 0 {
      assert w + tail == tail && cur + w == cur;
    } else {
      assert !Special(w[0]);
      assert (w + tail)[0] == w[0] && (w + tail)[1..] == w[1..] + tail;
      PlainRun(w[1..], tail, cur + [w[0]], fields);
      assert cur + [w[0]] + w[1..] == cur + w;
    }
  }

  /** At the end of the list the last field is cut. */
  lemma {:induction false} PlainLast(w: string, cur: string, fields: seq<string>)
    requires NoSpecial(w) && |w| > 0
    ensures SplitParams(w, false, 0, cur, fields) == fields + [Trim(cur + w)]
    decreases |w|
  {
    assert !Special(w[0]);
    if |w| == 1 {
      assert cur + [w[0]] == cur + w;
    } else {
      PlainLast(w[1..], cur + [w[0]], fields);
      assert cur + [w[0]] + w[1..] == cur + w;
    }
  }

  lemma JoinNotEmpty(ws: seq<string>, sep: string)
    requires |ws| > 0 && |ws[0]| > 0
    ensures |Join(ws, sep)| > 0
  {
  }

  /** A comma at depth zero cuts the field read so far; the space after
      it starts the next one. */
  lemma CommaSpace(rest: string, word: string, fields: seq<string>)
    requires |rest| > 0 && |word| > 0
    ensures SplitParams(", " + rest, false, 0, word, fields) == SplitParams(rest, false, 0, " ", fields + [Trim(word)])
  {
    CommaStep(rest, word, fields);
    SpaceStep(rest, fields + [Trim(word)]);
  }

  lemma CommaStep(rest: string, word: string, fields: seq<string>)
    requires |rest| > 0 && |word| > 0
    ensures SplitParams(", " + rest, false, 0, word, fields) == SplitParams(" " + rest, false, 0, "", fields + [Trim(word)])
  {
    var tail := ", " + rest;
    assert tail[0] == ',' && tail[1..] == " " + rest;
  }

  lemma SpaceStep(rest: string, fields: seq<string>)
    requires |rest| > 0
    ensures SplitParams(" " + rest, false, 0, "", fields) == SplitParams(rest, false, 0, " ", fields)
  {
    var tail := " " + rest;
    assert tail[0] == ' ' && tail[1..] == rest;
    assert "" + [' '] == " ";
  }

  /** Splitting plain parameters joined by ", " gives them back, whatever
      spaces precede the first one. */
  lemma {:induction false} SplitJoinFrom(ws: seq<string>, cur: string, fields: seq<string>)
    requires |ws| > 0 && forall i :: 0 <= i < |ws| ==> PlainParam(ws[i])
    requires Blank(cur)
    ensures SplitParams(Join(ws, ", "), false, 0, cur, fields) == fields + ws
    decreases |ws|
  {
    if |ws| == 1 {
      assert PlainParam(ws[0]);
      PlainLast(ws[0], cur, fields);
      TrimAfterBlank(cur, ws[0]);
      assert fields + [ws[0]] == fields + ws;
    } else {
      SplitJoinFirst(ws, cur, fields);
      SplitJoinFrom(ws[1..], " ", fields + [ws[0]]);
      assert fields + [ws[0]] + ws[1..] == fields + ws;
    }
  }

  /** The first of several plain parameters is cut at the comma after it. */
  lemma SplitJoinFirst(ws: seq<string>, cur: string, fields: seq<string>)
    requires |ws| > 1 && PlainParam(ws[0]) && PlainParam(ws[1])
    requires Blank(cur)
    ensures SplitParams(Join(ws, ", "), false, 0, cur, fields)
         == SplitParams(Join(ws[1..], ", "), false, 0, " ", fields + [ws[0]])
  {
    var rest := Join(ws[1..], ", ");
    JoinNotEmpty(ws[1..], ", ");
    var tail := ", " + rest;
    assert Join(ws, ", ") == ws[0] + tail;
    PlainRun(ws[0], tail, cur, fields);
    TrimAfterBlank(cur, ws[0]);
    CommaSpace(rest, cur + ws[0], fields);
  }

  /** The fields of plain parameters written `p1, p2, …` are the
      parameters themselves. */
  lemma ParamFieldsJoin(ws: seq<string>)
    requires |ws| > 0 && forall i :: 0 <= i < |ws| ==> PlainParam(ws[i])
    ensures ParamFields(Join(ws, ", ")) == ws
  {
    SplitJoinFrom(ws, "", []);
  }

  // ---------------------------------------------------------------------
  // Reading one parameter

  /** A parameter read from its field. */
  datatype Parameter = VarParam(v: Variable) | ArrParam(a: Array) | TupParam(t: Tuple)

  /** The parameters of a function, in three lists by kind, and the kinds
      in source order. */
  datatype Parameters = Parameters(vars: seq<Variable>, arrays: seq<Array>, tuples: seq<Tuple>, order: seq<ParamKind>)

  function KindOf(p: Parameter): ParamKind {
    match p
    case VarParam(_) => VariableParameter
    case ArrParam(_) => ArrayParameter
    case TupParam(_) => TupleParameter
  }

  /** The kind a parameter's type annotation asks for: a tuple when it
      starts with '(', an array when it has a '[' anywhere, else a
      primitive. */
  function AnnotationKind(annotation: string): ParamKind {
    if |annotation| > 0 && annotation[0] == '(' then TupleParameter
    else if HasChar(annotation, '[') then ArrayParameter
    else VariableParameter
  }

  /** The end of a parameter's name: its first space, or 0 when it has
      none. */
  function NameEnd(param: string): nat {
    var k := FindFrom(param, " ", 0);
    if k == |param| then 0 else k
  }

  /** The name of a parameter with its colon: everything before the first
      space. */
  function ParamName(param: string): string {
    param[..FindFrom(param, " ", 0)]
  }

  /** The annotation of a parameter: what follows the name, trimmed. */
  function ParamAnnotation(param: string): string {
    if NameEnd(param) + 1 <= |param| then Trim(param[NameEnd(param) + 1..]) else ""
  }

  /** Reads `name: type`.  The name must end in ':' and be a valid, legal
      identifier; it is not checked against the names in scope.  A
      parameter is never mutable and never of type IO. */
  function ParseParameter(param: string, illegal: set<string>, lineNum: int): (r: Result<Parameter>)
    ensures r.Ok? ==> NameEnd(param) + 1 < |param|
    ensures r.Ok? ==> KindOf(r.value) == AnnotationKind(ParamAnnotation(param))
    ensures r.Ok? && r.value.VarParam? ==>
      Identifiers.ParseIdentifier(ParamName(param), illegal, lineNum) == Ok(r.value.v.identifier)
      && Types.ReadType(ParamAnnotation(param), lineNum) == Ok(r.value.v.dataType)
      && r.value.v.dataType != IO && !r.value.v.mut
    ensures r.Ok? && r.value.ArrParam? ==>
      Identifiers.ParseIdentifier(ParamName(param), illegal, lineNum) == Ok(r.value.a.identifier)
      && ArrayTypes.ParseArrayType(ParamAnnotation(param), lineNum) == Ok(r.value.a.dataType) && !r.value.a.mut
    ensures r.Ok? && r.value.TupParam? ==>
      Identifiers.ParseIdentifier(ParamName(param), illegal, lineNum) == Ok(r.value.t.identifier)
      && TuplePatterns.ParseTuplePattern(ParamAnnotation(param), lineNum) == Ok(r.value.t.pattern) && !r.value.t.mut
    ensures Identifiers.ParseIdentifier(ParamName(param), illegal, lineNum).Err? ==> r.Err?
    ensures |param| > 0 && NameEnd(param) == |param| - 1 ==> r.Err?
    ensures r.Err? ==> r.line == lineNum
  {
    var name := ParamName(param);
    var nameEnd := NameEnd(param);
    if nameEnd == |param| - 1 then Err(lineNum, "found no type annotation after function parameter")
    else if nameEnd + 1 > |param| then Err(lineNum, "slice bounds out of range")
    else
      var annotation := ParamAnnotation(param);
      if |name| == 0 || name[|name| - 1] != ':' then
        Err(lineNum, "the last character of the parameter declaration is not a colon")
      else
        var id :- Identifiers.ParseIdentifier(name, illegal, lineNum);
        if |annotation| == 0 then Err(lineNum, "index out of range")
        else if annotation[0] == '(' then
          var pattern :- TuplePatterns.ParseTuplePattern(annotation, lineNum);
          Ok(TupParam(Tuple(id, pattern, false)))
        else if HasChar(annotation, '[') then
          var t :- ArrayTypes.ParseArrayType(annotation, lineNum);
          Ok(ArrParam(Array(id, t, false)))
        else
          var t :- Types.ReadType(annotation, lineNum);
          if t == IO then Err(lineNum, "function parameters cannot have type IO")
          else Ok(VarParam(Variable(id, t, false)))
  }

  /** Puts a parameter in front of the ones after it. */
  function Prepend(p: Parameter, ps: Parameters): (r: Parameters)
    ensures r.order == [KindOf(p)] + ps.order
  {
    match p
    case VarParam(v) => ps.(vars := [v] + ps.vars, order := [VariableParameter] + ps.order)
    case ArrParam(a) => ps.(arrays := [a] + ps.arrays, order := [ArrayParameter] + ps.order)
    case TupParam(t) => ps.(tuples := [t] + ps.tuples, order := [TupleParameter] + ps.order)
  }

  /** The order tags agree with the three lists: as many of each kind as
      the list of that kind is long. */
  predicate Tallied(ps: Parameters) {
    Expressions.CountKind(ps.order, VariableParameter) == |ps.vars|
    && Expressions.CountKind(ps.order, ArrayParameter) == |ps.arrays|
    && Expressions.CountKind(ps.order, TupleParameter) == |ps.tuples|
  }

  lemma PrependTallied(p: Parameter, ps: Parameters)
    requires Tallied(ps)
    ensures Tallied(Prepend(p, ps))
  {
    var o := Prepend(p, ps).order;
    assert o[1..] == ps.order;
  }

  /** `ps` is what the fields read as: one order tag per field, each the
      kind its annotation asks for, and every field a valid parameter. */
  predicate ReadAs(fields: seq<string>, ps: Parameters, illegal: set<string>, lineNum: int) {
    |ps.order| == |fields| && Tallied(ps)
    && forall i :: 0 <= i < |fields| ==>
      ParseParameter(fields[i], illegal, lineNum).Ok? && ps.order[i] == AnnotationKind(ParamAnnotation(fields[i]))
  }

  /** Every field is a valid parameter. */
  predicate AllValid(fields: seq<string>, illegal: set<string>, lineNum: int) {
    forall i :: 0 <= i < |fields| ==> ParseParameter(fields[i], illegal, lineNum).Ok?
  }

  /** Reads the fields one after the other; the first bad field is the
      error. */
  function ParseFields(fields: seq<string>, illegal: set<string>, lineNum: int): (r: Result<Parameters>)
    ensures r.Ok? ==> ReadAs(fields, r.value, illegal, lineNum)
    ensures AllValid(fields, illegal, lineNum) ==> r.Ok?
    ensures r.Err? ==> r.line == lineNum
    decreases |fields|
  {
    if |fields| == 0 then Ok(Parameters([], [], [], []))
    else
      var p :- ParseParameter(fields[0], illegal, lineNum);
      var rest :- (ValidTail(fields, illegal, lineNum); ParseFields(fields[1..], illegal, lineNum));
      ReadAsPrepend(fields, p, rest, illegal, lineNum);
      Ok(Prepend(p, rest))
  }

  lemma ValidTail(fields: seq<string>, illegal: set<string>, lineNum: int)
    requires |fields| > 0
    ensures AllValid(fields, illegal, lineNum) ==> AllValid(fields[1..], illegal, lineNum)
  {
    if AllValid(fields, illegal, lineNum) {
      forall i | 0 <= i < |fields| - 1 ensures ParseParameter(fields[1..][i], illegal, lineNum).Ok? {
        assert fields[1..][i] == fields[i + 1];
      }
    }
  }

  /** A parameter read from the first field, put in front of what the
      other fields read as, is what all the fields read as. */
  lemma ReadAsPrepend(fields: seq<string>, p: Parameter, rest: Parameters, illegal: set<string>, lineNum: int)
    requires |fields| > 0 && ParseParameter(fields[0], illegal, lineNum) == Ok(p)
    requires ReadAs(fields[1..], rest, illegal, lineNum)
    ensures ReadAs(fields, Prepend(p, rest), illegal, lineNum)
  {
    PrependTallied(p, rest);
    var ps := Prepend(p, rest);
    forall i | 0 <= i < |fields|
      ensures ParseParameter(fields[i], illegal, lineNum).Ok? && ps.order[i] == AnnotationKind(ParamAnnotation(fields[i]))
    {
      if i == 0 {
        assert ps.order[0] == KindOf(p);
      } else {
        assert fields[i] == fields[1..][i - 1];
        assert ps.order[i] == rest.order[i - 1];
      }
    }
  }

  /** `parseParameters`: the fields of the list, each read in turn. */
  function ParseParameters(params: string, illegal: set<string>, lineNum: int): (r: Result<Parameters>)
    ensures r.Ok? ==> |r.value.order| == |ParamFields(params)| && Tallied(r.value)
    ensures r.Ok? ==> forall i :: 0 <= i < |ParamFields(params)| ==>
      r.value.order[i] == AnnotationKind(ParamAnnotation(ParamFields(params)[i]))
    ensures r.Err? ==> r.line == lineNum
  {
    ParseFields(ParamFields(params), illegal, lineNum)
  }

  /** Every name of `xs` bound in `m`, in order, so a later one wins. */
  function Bind<T>(m: map<string, T>, xs: seq<T>, name: T -> string): (r: map<string, T>)
    ensures forall i :: 0 <= i < |xs| ==> name(xs[i]) in r
    ensures forall k :: k in m ==> k in r
    decreases |xs|
  {
    if |xs| == 0 then m else Bind(m[name(xs[0]) := xs[0]], xs[1..], name)
  }

  /** The tables of a function body: the header's tables with every
      parameter bound under its name, shadowing what was there. */
  function WithParameters(tables: Tables, ps: Parameters): (r: Tables)
    ensures r.functions == tables.functions
    ensures forall i :: 0 <= i < |ps.vars| ==> ps.vars[i].identifier in r.vars
    ensures forall i :: 0 <= i < |ps.arrays| ==> ps.arrays[i].identifier in r.arrays
    ensures forall i :: 0 <= i < |ps.tuples| ==> ps.tuples[i].identifier in r.tuples
  {
    Tables(Bind(tables.vars, ps.vars, (v: Variable) => v.identifier), tables.functions,
           Bind(tables.arrays, ps.arrays, (a: Array) => a.identifier),
           Bind(tables.tuples, ps.tuples, (t: Tuple) => t.identifier))
  }

  // ---------------------------------------------------------------------
  // The header line

  /** Where the parameter list ends and its text with the parentheses. */
  datatype Parenthesised = Parenthesised(identEnd: nat, text: string)

  /** The scan for the parameter list: characters are kept from the first
      '(' on while the parenthesis count is positive, and the scan stops at
      the ')' that brings it back to zero.  Without one, `identEnd` stays
      0. */
  function ParamsText(line: string, i: nat, count: int, acc: string): (r: Parenthesised)
    requires i <= |line|
    ensures r.identEnd == 0 || (r.identEnd < |line| && line[r.identEnd] == ')')
    decreases |line| - i
  {
    if i == |line| then Parenthesised(0, acc)
    else
      var c := line[i];
      var count' := if c == '(' then count + 1 else if c == ')' then count - 1 else count;
      var done := c == ')' && count' == 0;
      var acc' := if count' > 0 || done then acc + [c] else acc;
      if done then Parenthesised(i, acc') else ParamsText(line, i + 1, count', acc')
  }

  predicate NoParens(s: string) {
    forall i :: 0 <= i < |s| ==> s[i] != '(' && s[i] != ')'
  }

  lemma {:induction false} ScanOutside(line: string, i: nat, k: nat)
    requires i <= k < |line|
    requires forall j :: i <= j < k ==> line[j] != '(' && line[j] != ')'
    ensures ParamsText(line, i, 0, "") == ParamsText(line, k, 0, "")
    decreases k - i
  {
    if i < k {
      ScanOutside(line, i + 1, k);
    }
  }

  lemma {:induction false} ScanInside(line: string, i: nat, k: nat, acc: string)
    requires i <= k <= |line|
    requires forall j :: i <= j < k ==> line[j] != '(' && line[j] != ')'
    ensures ParamsText(line, i, 1, acc) == ParamsText(line, k, 1, acc + line[i..k])
    decreases k - i
  {
    if i < k {
      ScanInside(line, i + 1, k, acc + [line[i]]);
      assert acc + [line[i]] + line[i + 1..k] == acc + line[i..k];
    } else {
      assert acc + line[i..k] == acc;
    }
  }

  /** On `head(params)tail` with no parentheses in the head or the
      parameters, the scan stops at the closing parenthesis and keeps
      exactly `(params)`. */
  lemma HeaderParams(head: string, params: string, tail: string)
    requires NoParens(head) && NoParens(params)
    ensures var line := head + "(" + params + ")" + tail;
      ParamsText(line, 0, 0, "") == Parenthesised(|head| + |params| + 1, "(" + params + ")")
  {
    var line := head + "(" + params + ")" + tail;
    var open := |head|;
    var close := |head| + |params| + 1;
    assert line[open] == '(' && line[close] == ')';
    assert forall j :: 0 <= j < open ==> line[j] == head[j];
    ScanOutside(line, 0, open);
    assert "" + [line[open]] == "(";
    assert ParamsText(line, open, 0, "") == ParamsText(line, open + 1, 1, "(");
    assert forall j :: open + 1 <= j < close ==> line[j] == params[j - open - 1];
    ScanInside(line, open + 1, close, "(");
    assert line[open + 1..close] == params;
  }

  /** The split of the parameter list on the header line: spaces at
      parenthesis depth zero separate the words after the parameters. */
  function AfterWords(line: string, i: nat, depth: int, cur: string, words: seq<string>): (r: seq<string>)
    requires i <= |line|
    requires forall k :: 0 <= k < |words| ==> |words[k]| > 0
    ensures forall k :: 0 <= k < |r| ==> |r[k]| > 0
    decreases |line| - i
  {
    if i == |line| then words
    else
      var c := line[i];
      var cut := c == ' ' && depth == 0;
      var depth' := if c == '(' then depth + 1 else if c == ')' then depth - 1 else depth;
      var words' := if cut && |cur| > 0 then words + [cur] else words;
      var cur' := if cut then (if |cur| > 0 then "" else cur) else cur + [c];
      if i == |line| - 1 then (if |cur'| != 0 then words' + [cur'] else words')
      else AfterWords(line, i + 1, depth', cur', words')
  }

  /** The return domain an annotation selects: a '[' anywhere makes it an
      array, even after a leading '('. */
  function ReturnDomainOf(annotation: string): (d: ReturnDomain)
    ensures d == Derived <==> HasChar(annotation, '[')
    ensures d == TupleReturn <==> !HasChar(annotation, '[') && |annotation| > 0 && annotation[0] == '('
  {
    if HasChar(annotation, '[') then Derived
    else if |annotation| > 0 && annotation[0] == '(' then TupleReturn
    else Primitive
  }

  /** The three return-type fields of a function; the two the domain does
      not use keep Go's zero values. */
  datatype Signature = Signature(pattern: TuplePattern, derived: ArrayType, prim: PrimType)

  function ReturnTypes(annotation: string, domain: ReturnDomain, id: string, lineNum: int): (r: Result<Signature>)
    ensures r.Ok? && domain == Derived ==>
      ArrayTypes.ParseArrayType(annotation, lineNum) == Ok(r.value.derived)
      && r.value.pattern == TuplePattern([]) && r.value.prim == Int
    ensures r.Ok? && domain == TupleReturn ==>
      TuplePatterns.ParseTuplePattern(annotation, lineNum) == Ok(r.value.pattern)
      && r.value.derived == ArrayType([], Int) && r.value.prim == Int
    ensures r.Ok? && domain == Primitive ==>
      Types.ReadType(annotation, lineNum) == Ok(r.value.prim)
      && r.value.pattern == TuplePattern([]) && r.value.derived == ArrayType([], Int)
    ensures r.Ok? && domain == Primitive && r.value.prim == IO ==> id == "main"
    ensures domain == Primitive && annotation == "IO" && id != "main" ==> r.Err?
    ensures r.Err? ==> r.line == lineNum
  {
    match domain
    case Derived =>
      var t :- ArrayTypes.ParseArrayType(annotation, lineNum);
      Ok(Signature(TuplePattern([]), t, Int))
    case TupleReturn =>
      var p :- TuplePatterns.ParseTuplePattern(annotation, lineNum);
      Ok(Signature(p, ArrayType([], Int), Int))
    case Primitive =>
      var t :- Types.ReadType(annotation, lineNum);
      if t == IO && id != "main" then Err(lineNum, "only the main() function can have return type IO")
      else Ok(Signature(TuplePattern([]), ArrayType([], Int), t))
  }

  /** One past the last '=' of `line` at or after `from`, or 0 when there
      is none. */
  function LastEquals(line: string, from: nat, i: nat): (k: nat)
    requires from <= i <= |line|
    ensures k == 0 || (from < k <= i && line[k - 1] == '=' && forall j :: k <= j < i ==> line[j] != '=')
    ensures k == 0 ==> forall j :: from <= j < i ==> line[j] != '='
    decreases i
  {
    if i == from then 0 else if line[i - 1] == '=' then i else LastEquals(line, from, i - 1)
  }

  /** The length of all lines joined, one newline after each. */
  function TotalLength(lines: seq<string>): nat {
    if |lines| == 0 then 0 else |lines[0]| + 1 + TotalLength(lines[1..])
  }

  /** The name on the header line: the second word up to its '('. */
  function FunctionName(line: string): string {
    var ws := Fields(line);
    if |ws| < 2 then "" else ws[1][..FindFrom(ws[1], "(", 0)]
  }

  // ---------------------------------------------------------------------
  // The body

  /** A primitive-valued body: the expression after the '=' on the header
      line, or the block it opens. */
  function ValueBody(lines: seq<string>, lineNum: nat, exprStart: nat, tables: Tables, illegal: set<string>, fuel: nat)
    : (r: Result<Blocks.Block<Expression>>)
    requires lineNum < |lines| && exprStart <= |lines[lineNum]|
    ensures var t := Trim(lines[lineNum][exprStart..]);
      r.Ok? ==> (|t| > 0
        && (t[0] != '{' ==> (r.value.arities == {}
              && Expressions.ParseExpression(lines[lineNum][exprStart..], tables, fuel, lineNum) == Ok(r.value.value)))
        && (t[0] == '{' ==> Blocks.MultiLineExpression(lines, lineNum, tables, illegal, fuel) == Ok(r.value)))
    ensures |Trim(lines[lineNum][exprStart..])| == 0 ==> r.Err?
  {
    var t := Trim(lines[lineNum][exprStart..]);
    if |t| == 0 then Err(lineNum, "index out of range")
    else if t[0] != '{' then
      var e :- Expressions.ParseExpression(lines[lineNum][exprStart..], tables, fuel, lineNum);
      Ok(Blocks.Block(e, {}))
    else Blocks.MultiLineExpression(lines, lineNum, tables, illegal, fuel)
  }

  /** An array-valued body, read like `ValueBody`. */
  function ArrayBody(lines: seq<string>, lineNum: nat, exprStart: nat, base: PrimType, tables: Tables,
                     illegal: set<string>, fuel: nat): (r: Result<Blocks.Block<ArrayExpression>>)
    requires lineNum < |lines| && exprStart <= |lines[lineNum]|
    ensures var t := Trim(lines[lineNum][exprStart..]);
      r.Ok? ==> (|t| > 0
        && (t[0] != '{' ==> (r.value.arities == {}
              && Expressions.ParseArrayExpression(lines[lineNum][exprStart..], base, tables, fuel, lineNum)
                 == Ok(r.value.value)))
        && (t[0] == '{' ==> Blocks.MultiLineArrayExpression(lines, lineNum, base, tables, illegal, fuel) == Ok(r.value)))
    ensures |Trim(lines[lineNum][exprStart..])| == 0 ==> r.Err?
  {
    var t := Trim(lines[lineNum][exprStart..]);
    if |t| == 0 then Err(lineNum, "index out of range")
    else if t[0] != '{' then
      var e :- Expressions.ParseArrayExpression(lines[lineNum][exprStart..], base, tables, fuel, lineNum);
      Ok(Blocks.Block(e, {}))
    else Blocks.MultiLineArrayExpression(lines, lineNum, base, tables, illegal, fuel)
  }

  /** Checks the body against the return annotation of `f` and gives the
      tuple arities read in it.  A tuple body is always read as a block. */
  function CheckBody(lines: seq<string>, lineNum: nat, exprStart: nat, f: Function, tables: Tables,
                     illegal: set<string>, fuel: nat): (r: Result<set<nat>>)
    requires lineNum < |lines| && exprStart <= |lines[lineNum]|
    ensures r.Ok? && f.returnDomain == Primitive ==>
      var b := ValueBody(lines, lineNum, exprStart, tables, illegal, fuel);
      b.Ok? && b.value.value.dataType == f.returnType && r.value == b.value.arities
    ensures r.Ok? && f.returnDomain == Derived ==>
      var b := ArrayBody(lines, lineNum, exprStart, f.derivedReturnType.baseType, tables, illegal, fuel);
      b.Ok? && b.value.value.dataType == f.derivedReturnType && r.value == b.value.arities
    ensures r.Ok? && f.returnDomain == TupleReturn ==>
      var b := Blocks.MultiLineTupleExpression(lines, lineNum, f.tupleReturnType, tables, illegal, fuel);
      b.Ok? && r.value == b.value.arities
  {
    match f.returnDomain
    case TupleReturn =>
      var b :- Blocks.MultiLineTupleExpression(lines, lineNum, f.tupleReturnType, tables, illegal, fuel);
      Ok(b.arities)
    case Derived =>
      var want := f.derivedReturnType;
      var b :- ArrayBody(lines, lineNum, exprStart, want.baseType, tables, illegal, fuel);
      var got := b.value.dataType;
      if got.baseType != want.baseType then Err(lineNum, "returned array of another base type")
      else if |got.dimensions| != |want.dimensions| then Err(lineNum, "returned array with another number of dimensions")
      else if got.dimensions != want.dimensions then
        Err(lineNum, "dimensions size of array returned from function does not match return type annotation")
      else Ok(b.arities)
    case Primitive =>
      var b :- ValueBody(lines, lineNum, exprStart, tables, illegal, fuel);
      if b.value.dataType != f.returnType then Err(lineNum, "returned value of another type")
      else Ok(b.arities)
  }

  // ---------------------------------------------------------------------
  // The declaration

  /** A parsed function, the tables of its body (parameters and the
      function itself added), and the tuple arities read on the way. */
  datatype Header = Header(f: Function, tables: Tables, arities: set<nat>)

  /** The arities of the tuple parameters. */
  function ParamArities(ts: seq<Tuple>): (r: set<nat>)
    ensures forall i :: 0 <= i < |ts| ==> |ts[i].pattern.dataTypes| in r
  {
    if |ts| == 0 then {} else {|ts[0].pattern.dataTypes|} + ParamArities(ts[1..])
  }

  /** The parts of a header line up to the return annotation. */
  datatype Head = Head(id: string, params: Parameters, identEnd: nat, after: seq<string>)

  /** The function's name: the second word of the line up to its '(',
      which must be a legal identifier new to all four tables. */
  function HeadName(line: string, tables: Tables, illegal: set<string>, lineNum: int): (r: Result<string>)
    ensures r.Ok? ==> (|Fields(line)| >= 2 && Fields(line)[0] == "function"
      && Identifiers.ParseIdentifier(FunctionName(line) + ":", illegal, lineNum) == Ok(r.value)
      && !Declared(tables, r.value))
    ensures var id := Identifiers.ParseIdentifier(FunctionName(line) + ":", illegal, lineNum);
      (id.Ok? && Declared(tables, id.value)) ==> r.Err?
    ensures r.Err? ==> r.line == lineNum
  {
    var words := Fields(line);
    if |words| == 0 || words[0] != "function" then Err(lineNum, "parseFunction() called without function keyword")
    else if |words| < 2 then Err(lineNum, "index out of range")
    else
      var id :- Identifiers.ParseIdentifier(FunctionName(line) + ":", illegal, lineNum);
      if Declared(tables, id) then Err(lineNum, id + " already defined in this scope")
      else Ok(id)
  }

  /** The parameters: the text inside the first balanced pair of
      parentheses, split and read. */
  function HeadParams(line: string, illegal: set<string>, lineNum: int): (r: Result<Parameters>)
    ensures r.Ok? ==> var s := ParamsText(line, 0, 0, "");
      |s.text| >= 2 && ParseParameters(s.text[1..|s.text| - 1], illegal, lineNum) == Ok(r.value)
    ensures r.Err? ==> r.line == lineNum
  {
    var s := ParamsText(line, 0, 0, "");
    if |s.text| < 2 then Err(lineNum, "slice bounds out of range")
    else ParseParameters(s.text[1..|s.text| - 1], illegal, lineNum)
  }

  /** Reads the name, the parameter list and the words after it:
      `-> type = {` must follow the parameters. */
  function ParseHead(line: string, tables: Tables, illegal: set<string>, lineNum: int): (r: Result<Head>)
    ensures r.Ok? ==> (HeadName(line, tables, illegal, lineNum) == Ok(r.value.id)
      && HeadParams(line, illegal, lineNum) == Ok(r.value.params))
    ensures r.Ok? ==> AfterShape(line, r.value)
    ensures HeadName(line, tables, illegal, lineNum).Err? ==> r.Err?
    ensures r.Err? ==> r.line == lineNum
  {
    var id :- HeadName(line, tables, illegal, lineNum);
    var ps :- HeadParams(line, illegal, lineNum);
    HeadAfter(line, id, ps, lineNum)
  }

  /** The parameter list of `h` ends where the scan of `line` stops, and
      the words after it are `-> type = {`. */
  predicate AfterShape(line: string, h: Head) {
    var end := ParamsText(line, 0, 0, "").identEnd;
    h.identEnd == end && end + 1 < |line|
    && h.after == AfterWords(line, end + 1, 0, "", [])
    && |h.after| >= 4 && h.after[0] == "->" && h.after[2] == "=" && h.after[3] == "{"
  }

  /** The words after the parameter list must be `-> type = {`.  The
      source reads the return annotation between the `->` check and the
      `=` check; here `ParseFunction` reads it after this member.  Only
      which error message a line with two faults gets differs. */
  function HeadAfter(line: string, id: string, ps: Parameters, lineNum: int): (r: Result<Head>)
    ensures r.Ok? ==> r.value.id == id && r.value.params == ps
    ensures r.Ok? ==> AfterShape(line, r.value)
    ensures r.Err? ==> r.line == lineNum
  {
    var identEnd := ParamsText(line, 0, 0, "").identEnd;
    if identEnd + 1 >= |line| then
      Err(lineNum, "function declaration has no return type annotation and no block opened")
    else
      var after := AfterWords(line, identEnd + 1, 0, "", []);
      if |after| < 4 then Err(lineNum, "expected '->', type, '=' and '{' after function identifier")
      else if after[0] != "->" then Err(lineNum, "expected return type annotation with '->'")
      else if after[2] != "=" then Err(lineNum, "expected equals sign '=' after return type annotation")
      else if after[3] != "{" then Err(lineNum, "expected block opener '{' after function declaration")
      else Ok(Head(id, ps, identEnd, after))
  }

  /** `parseFunction`: reads the header on `lines[lineNum]` in the tables
      of the enclosing scope's header, checks the body with the parameters
      bound, and only then records the function, so that its own body
      cannot call it. */
  function ParseFunction(lines: seq<string>, lineNum: nat, tables: Tables, illegal: set<string>, fuel: nat)
    : (r: Result<Header>)
    requires lineNum < |lines|
    ensures r.Ok? ==> var h := ParseHead(lines[lineNum], tables, illegal, lineNum);
      (h.Ok? && r.value.f.identifier == h.value.id
      && r.value.f.returnDomain == ReturnDomainOf(h.value.after[1])
      && Parameters(r.value.f.parameters, r.value.f.arrays, r.value.f.tuples, r.value.f.paramsOrder) == h.value.params
      && ReturnTypes(h.value.after[1], r.value.f.returnDomain, r.value.f.identifier, lineNum)
         == Ok(Signature(r.value.f.tupleReturnType, r.value.f.derivedReturnType, r.value.f.returnType))
      && r == FunctionFrom(lines, lineNum, h.value, ReturnTypes(h.value.after[1], r.value.f.returnDomain, h.value.id, lineNum).value,
                           tables, illegal, fuel))
    ensures r.Ok? ==> !Declared(tables, r.value.f.identifier)
    ensures r.Ok? && r.value.f.returnDomain == Primitive && r.value.f.returnType == IO ==> r.value.f.identifier == "main"
    ensures ParseHead(lines[lineNum], tables, illegal, lineNum).Err? ==> r.Err?
  {
    var h :- ParseHead(lines[lineNum], tables, illegal, lineNum);
    var sig :- ReturnTypes(h.after[1], ReturnDomainOf(h.after[1]), h.id, lineNum);
    FunctionFrom(lines, lineNum, h, sig, tables, illegal, fuel)
  }

  /** The function a read header and return signature describe, once its
      body is checked. */
  function FunctionFrom(lines: seq<string>, lineNum: nat, h: Head, sig: Signature, tables: Tables,
                        illegal: set<string>, fuel: nat): (r: Result<Header>)
    requires lineNum < |lines| && h.identEnd + 1 <= |lines[lineNum]| && |h.after| >= 2
    ensures r.Ok? ==> r.value.f == Function(h.params.vars, h.params.arrays, h.params.tuples, h.params.order, h.id,
                                            sig.pattern, sig.derived, sig.prim, ReturnDomainOf(h.after[1]))
    ensures r.Ok? ==> var k := LastEquals(lines[lineNum], h.identEnd + 1, |lines[lineNum]|);
      (k != 0 && k != TotalLength(lines)
      && CheckBody(lines, lineNum, k, r.value.f, r.value.tables.(functions := tables.functions), illegal, fuel).Ok?)
    ensures r.Ok? ==> var f := r.value.f; var t := r.value.tables;
      (t.functions == tables.functions[f.identifier := f]
      && (forall i :: 0 <= i < |f.parameters| ==> f.parameters[i].identifier in t.vars)
      && (forall i :: 0 <= i < |f.arrays| ==> f.arrays[i].identifier in t.arrays)
      && (forall i :: 0 <= i < |f.tuples| ==> f.tuples[i].identifier in t.tuples))
    ensures r.Ok? ==> var f := r.value.f;
      ((forall i :: 0 <= i < |f.tuples| ==> |f.tuples[i].pattern.dataTypes| in r.value.arities)
      && (f.returnDomain == TupleReturn ==> |f.tupleReturnType.dataTypes| in r.value.arities))
  {
    var line := lines[lineNum];
    var exprStart := LastEquals(line, h.identEnd + 1, |line|);
    if exprStart == TotalLength(lines) || exprStart == 0 then Err(lineNum, "found no returned expression from function")
    else
      var ps := h.params;
      var f := Function(ps.vars, ps.arrays, ps.tuples, ps.order, h.id, sig.pattern, sig.derived, sig.prim,
                        ReturnDomainOf(h.after[1]));
      assert Parameters(f.parameters, f.arrays, f.tuples, f.paramsOrder) == ps;
      var body :- CheckBody(lines, lineNum, exprStart, f, WithParameters(tables, ps), illegal, fuel);
      Ok(Recorded(f, tables, body))
  }

  /** The header of a checked function: the body's tables are the
      enclosing header's tables with the parameters bound and the function
      added, and the arities are those of its tuple parameters, of a tuple
      return type, and of the body. */
  function Recorded(f: Function, tables: Tables, body: set<nat>): (r: Header)
    ensures r.f == f
    ensures r.tables.(functions := tables.functions)
         == WithParameters(tables, Parameters(f.parameters, f.arrays, f.tuples, f.paramsOrder))
    ensures r.tables.functions == tables.functions[f.identifier := f]
    ensures forall i :: 0 <= i < |f.parameters| ==> f.parameters[i].identifier in r.tables.vars
    ensures forall i :: 0 <= i < |f.arrays| ==> f.arrays[i].identifier in r.tables.arrays
    ensures forall i :: 0 <= i < |f.tuples| ==> f.tuples[i].identifier in r.tables.tuples
    ensures forall i :: 0 <= i < |f.tuples| ==> |f.tuples[i].pattern.dataTypes| in r.arities
    ensures f.returnDomain == TupleReturn ==> |f.tupleReturnType.dataTypes| in r.arities
  {
    var inner := WithParameters(tables, Parameters(f.parameters, f.arrays, f.tuples, f.paramsOrder));
    var returned := if f.returnDomain == TupleReturn then {|f.tupleReturnType.dataTypes|} else {};
    assert inner.(functions := inner.functions[f.identifier := f]).(functions := tables.functions) == inner;
    Header(f, inner.(functions := inner.functions[f.identifier := f]), ParamArities(f.tuples) + returned + body)
  }

  /** The body is checked against the return annotation in the tables of
      the enclosing header plus the parameters; the function's own name is
      not among them. */
  lemma FunctionBodyChecked(lines: seq<string>, lineNum: nat, tables: Tables, illegal: set<string>, fuel: nat)
    requires lineNum < |lines|
    requires ParseFunction(lines, lineNum, tables, illegal, fuel).Ok?
    ensures var r := ParseFunction(lines, lineNum, tables, illegal, fuel).value;
      var h := ParseHead(lines[lineNum], tables, illegal, lineNum).value;
      var k := LastEquals(lines[lineNum], h.identEnd + 1, |lines[lineNum]|);
      k != 0 && r.f.identifier !in tables.functions
      && CheckBody(lines, lineNum, k, r.f, r.tables.(functions := tables.functions), illegal, fuel).Ok?
  {
    var h := ParseHead(lines[lineNum], tables, illegal, lineNum).value;
    var sig := ReturnTypes(h.after[1], ReturnDomainOf(h.after[1]), h.id, lineNum).value;
    assert ParseFunction(lines, lineNum, tables, illegal, fuel) == FunctionFrom(lines, lineNum, h, sig, tables, illegal, fuel);
  }

  /** After the declaration the body's tables hold every parameter and the
      function itself. */
  lemma FunctionScopeTables(lines: seq<string>, lineNum: nat, tables: Tables, illegal: set<string>, fuel: nat)
    requires lineNum < |lines|
    requires ParseFunction(lines, lineNum, tables, illegal, fuel).Ok?
    ensures var r := ParseFunction(lines, lineNum, tables, illegal, fuel).value; var f := r.f; var t := r.tables;
      t.functions == tables.functions[f.identifier := f]
      && (forall i :: 0 <= i < |f.parameters| ==> f.parameters[i].identifier in t.vars)
      && (forall i :: 0 <= i < |f.arrays| ==> f.arrays[i].identifier in t.arrays)
      && (forall i :: 0 <= i < |f.tuples| ==> f.tuples[i].identifier in t.tuples)
  {
  }

  /** Every tuple arity in the signature is recorded for the generated
      tuple types. */
  lemma FunctionArities(lines: seq<string>, lineNum: nat, tables: Tables, illegal: set<string>, fuel: nat)
    requires lineNum < |lines|
    requires ParseFunction(lines, lineNum, tables, illegal, fuel).Ok?
    ensures var r := ParseFunction(lines, lineNum, tables, illegal, fuel).value; var f := r.f;
      (forall i :: 0 <= i < |f.tuples| ==> |f.tuples[i].pattern.dataTypes| in r.arities)
      && (f.returnDomain == TupleReturn ==> |f.tupleReturnType.dataTypes| in r.arities)
  {
  }

  /** A function cannot be declared twice: reading the same header again
      in the tables its declaration produced fails. */
  lemma FunctionNotRedeclarable(lines: seq<string>, lineNum: nat, tables: Tables, illegal: set<string>, fuel: nat)
    requires lineNum < |lines|
    requires ParseFunction(lines, lineNum, tables, illegal, fuel).Ok?
    ensures ParseFunction(lines, lineNum, ParseFunction(lines, lineNum, tables, illegal, fuel).value.tables,
                          illegal, fuel).Err?
  {
  }

  /** The return annotation `IO` is refused for every function but `main`. */
  lemma OnlyMainReturnsIO(lines: seq<string>, lineNum: nat, tables: Tables, illegal: set<string>, fuel: nat)
    requires lineNum < |lines|
    requires ParseHead(lines[lineNum], tables, illegal, lineNum).Ok?
    requires ParseHead(lines[lineNum], tables, illegal, lineNum).value.after[1] == "IO"
    requires ParseHead(lines[lineNum], tables, illegal, lineNum).value.id != "main"
    ensures ParseFunction(lines, lineNum, tables, illegal, fuel).Err?
  {
    var h := ParseHead(lines[lineNum], tables, illegal, lineNum).value;
    IOIsPrimitive();
    SignatureNeeded(lines, lineNum, tables, illegal, fuel);
  }

  /** A header whose return annotation cannot be read declares nothing. */
  lemma SignatureNeeded(lines: seq<string>, lineNum: nat, tables: Tables, illegal: set<string>, fuel: nat)
    requires lineNum < |lines|
    requires ParseHead(lines[lineNum], tables, illegal, lineNum).Ok?
    ensures var h := ParseHead(lines[lineNum], tables, illegal, lineNum).value;
      ReturnTypes(h.after[1], ReturnDomainOf(h.after[1]), h.id, lineNum).Err? ==>
      ParseFunction(lines, lineNum, tables, illegal, fuel).Err?
  {
  }

  lemma IOIsPrimitive()
    ensures ReturnDomainOf("IO") == Primitive
  {
    assert !HasChar("IO", '[');
  }
}
