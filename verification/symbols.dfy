/** The entities the front end records while it reads a program: the
    descriptors of variables, arrays, tuples and functions, the four
    name-to-descriptor tables a scope keeps, and the parsed forms of
    expressions that later phases render as Go.
 */
module Symbols {
  import opened Types

  /** A parsed expression: its tokens and its single primitive type. */
  datatype Expression = Expression(items: seq<string>, dataType: PrimType)

  datatype Variable = Variable(identifier: string, dataType: PrimType, mut: bool)

  /** An array annotation such as `int[3]`: the sizes and the element type. */
  datatype ArrayType = ArrayType(dimensions: seq<int>, baseType: PrimType)

  datatype Array = Array(identifier: string, dataType: ArrayType, mut: bool)

  /** A tuple annotation such as `(int, string)`. */
  datatype TuplePattern = TuplePattern(dataTypes: seq<PrimType>)

  datatype Tuple = Tuple(identifier: string, pattern: TuplePattern, mut: bool)

  /** Which of the three parameter lists a parameter went to. */
  datatype ParamKind = VariableParameter | ArrayParameter | TupleParameter

  /** Which of the three return-type fields of a function is meaningful. */
  datatype ReturnDomain = Primitive | Derived | TupleReturn

  /** A function signature.  Parameters are kept in three lists by kind,
      and `paramsOrder` holds one tag per parameter in source order. */
  datatype Function = Function(
    parameters: seq<Variable>,
    arrays: seq<Array>,
    tuples: seq<Tuple>,
    paramsOrder: seq<ParamKind>,
    identifier: string,
    tupleReturnType: TuplePattern,
    derivedReturnType: ArrayType,
    returnType: PrimType,
    returnDomain: ReturnDomain)

  /** The four name tables of a scope. */
  datatype Tables = Tables(
    vars: map<string, Variable>,
    functions: map<string, Function>,
    arrays: map<string, Array>,
    tuples: map<string, Tuple>)

  const EmptyTables: Tables := Tables(map[], map[], map[], map[])

  /** A name is taken when any of the four tables has it. */
  predicate Declared(t: Tables, name: string) {
    name in t.vars || name in t.functions || name in t.arrays || name in t.tuples
  }

  /** Every entry of `parent` is still present, unchanged, in `child`. */
  predicate Extends(child: Tables, parent: Tables) {
    (forall k :: k in parent.vars ==> k in child.vars && child.vars[k] == parent.vars[k])
    && (forall k :: k in parent.functions ==> k in child.functions && child.functions[k] == parent.functions[k])
    && (forall k :: k in parent.arrays ==> k in child.arrays && child.arrays[k] == parent.arrays[k])
    && (forall k :: k in parent.tuples ==> k in child.tuples && child.tuples[k] == parent.tuples[k])
  }

  lemma ExtendsTransitive(a: Tables, b: Tables, c: Tables)
    requires Extends(a, b) && Extends(b, c)
    ensures Extends(a, c)
  {
  }

  /** Recording a name its table did not hold keeps every other entry. */
  lemma AddVariableExtends(t: Tables, v: Variable)
    requires v.identifier !in t.vars
    ensures Extends(t.(vars := t.vars[v.identifier := v]), t)
  {
  }

  lemma AddArrayExtends(t: Tables, a: Array)
    requires a.identifier !in t.arrays
    ensures Extends(t.(arrays := t.arrays[a.identifier := a]), t)
  {
  }

  lemma AddTupleExtends(t: Tables, u: Tuple)
    requires u.identifier !in t.tuples
    ensures Extends(t.(tuples := t.tuples[u.identifier := u]), t)
  {
  }

  lemma AddFunctionExtends(t: Tables, f: Function)
    requires f.identifier !in t.functions
    ensures Extends(t.(functions := t.functions[f.identifier := f]), t)
  {
  }

  /** The tables a nested scope's header is read with.  Variables,
      functions and arrays are copied; the tuple copy loop writes back into
      the enclosing scope instead of the new one, so the header starts with
      no tuples (src/transpiler/parser.go:1654-1657). */
  function HeaderTables(enclosing: Tables): (r: Tables)
    ensures r.vars == enclosing.vars && r.functions == enclosing.functions
    ensures r.arrays == enclosing.arrays && r.tuples == map[]
  {
    Tables(enclosing.vars, enclosing.functions, enclosing.arrays, map[])
  }

  /** A call after its arguments were checked.  Array and tuple arguments
      keep only their types. */
  datatype FunctionCall = FunctionCall(
    functionName: string,
    parameters: seq<Expression>,
    arrays: seq<ArrayType>,
    tuples: seq<TuplePattern>,
    order: seq<ParamKind>)

  /** An array-valued expression: its text and its array type. */
  datatype ArrayExpression = ArrayExpression(stringValue: string, dataType: ArrayType)

  /** The elements of an array literal and the element type expected. */
  datatype BaseArray = BaseArray(values: seq<Expression>, dataType: PrimType, length: nat)

  datatype ArrayIndexing = ArrayIndexing(arrayId: string, dataType: ArrayType, index: Expression)

  /** The three forms a tuple-valued expression can take. */
  datatype TupleExpression =
    | TupleLiteral(values: seq<Expression>)
    | TupleVariable(t: Tuple)
    | TupleCall(call: FunctionCall)

  datatype TupleIndexing = TupleIndexing(t: Tuple, i: int)
}
