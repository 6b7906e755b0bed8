/** The parsed forms of lines that a scope collects, in source order, and
    the scope itself (src/transpiler/parser.go, src/transpiler/scoping.go,
    src/transpiler/collections.go, src/transpiler/tuple.go,
    src/transpiler/loop.go, src/transpiler/macro.go).  Go keeps them in a
    list of values behind one interface; here they are the variants of one
    datatype.
 */
module Items {
  import opened Symbols

  /** Why a scope was opened. */
  datatype ScopeType = FunctionScope | SelectionScope | LoopScope | Global

  datatype SelectionType = If | ElseIf | Else

  datatype MacroType = Print | Println | Panic

  /** One parsed line.  A returned value is a bare expression, array
      expression or tuple expression in a function body; `Nested` is a
      whole inner scope, and `ScopeCloser` the `}` that ends one. */
  datatype Item =
    | Declaration(v: Variable, e: Expression)
    | ArrayDeclaration(arr: Array, arrExpr: ArrayExpression)
    | TupleDeclaration(t: Tuple, tupExpr: TupleExpression)
    | FunctionDeclaration(f: Function)
    | Assignment(v: Variable, e: Expression)
    | ArrayAssignment(arr: Array, arrExpr: ArrayExpression)
    | TupleAssignment(t: Tuple, tupExpr: TupleExpression)
    | ArrayIndexAssignment(arrIndex: ArrayIndexing, e: Expression)
    | Returned(e: Expression)
    | ReturnedArray(arrExpr: ArrayExpression)
    | ReturnedTuple(tupExpr: TupleExpression)
    | Selection(selectionType: SelectionType, e: Expression)
    | Loop(e: Expression)
    | Break(text: string)
    | Macro(kind: MacroType, e: Expression)
    | Nested(scope: Scope)
    | ScopeCloser(closer: string)

  /** A scope: the four name tables as they stand at its end, its items,
      and why it was opened. */
  datatype Scope = Scope(tables: Tables, items: seq<Item>, scopeType: ScopeType)

  /** A parsed statement and the tables after it. */
  datatype Step = Step(item: Item, tables: Tables)
}
