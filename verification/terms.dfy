/** The token-level helpers of the expression type checker in
    src/transpiler/types.go: the term after an operator, the term before
    it, the next operator outside brackets, and the removal of one pair of
    enclosing brackets.
 */
module Terms {
  import opened Results
  import opened Tokens

  /** A half-open range `[lo, hi)` of token positions. */
  datatype Span = Span(lo: nat, hi: nat)

  /** The contribution of one token to a bracket depth.  With `curly`,
      braces count as well as parentheses. */
  function TokenDepth(t: string, curly: bool): int {
    if t == "(" || (curly && t == "{") then 1
    else if t == ")" || (curly && t == "}") then -1
    else 0
  }

  /** The net bracket depth of the tokens `e[a..b]`. */
  function Depth(e: seq<string>, a: nat, b: nat, curly: bool): int
    requires a <= b <= |e|
    decreases b - a
  {
    if a == b then 0 else Depth(e, a, b - 1, curly) + TokenDepth(e[b - 1], curly)
  }

  /** Depth read from the front: the first token, then the rest. */
  lemma {:induction false} DepthFront(e: seq<string>, a: nat, b: nat, curly: bool)
    requires a < b <= |e|
    ensures Depth(e, a, b, curly) == TokenDepth(e[a], curly) + Depth(e, a + 1, b, curly)
    decreases b - a
  {
    if b > a + 1 {
      DepthFront(e, a, b - 1, curly);
    }
  }

  /** Depth over a range of tokens does not depend on what surrounds it. */
  lemma {:induction false} DepthShift(e: seq<string>, f: seq<string>, a: nat, b: nat, d: nat, curly: bool)
    requires a <= b <= |e| && d + b <= |f|
    requires forall k :: a <= k < b ==> f[d + k] == e[k]
    ensures Depth(f, d + a, d + b, curly) == Depth(e, a, b, curly)
    decreases b - a
  {
    if b > a {
      DepthShift(e, f, a, b - 1, d, curly);
    }
  }

  // ---------------------------------------------------------------------
  // nextOperator

  predicate IsTopOperator(e: seq<string>, index: int, j: nat)
    requires -1 <= index < j < |e|
  {
    IsOperator(e[j]) && Depth(e, index + 1, j + 1, false) == 0
  }

  /** The first operator after `index` that is outside every parenthesis
      opened after `index`; `None` when there is none. */
  function NextOperator(e: seq<string>, index: int): (r: Option<nat>)
    requires -1 <= index < |e|
    ensures r.Some? ==> index < r.value < |e| && IsTopOperator(e, index, r.value)
    ensures r.Some? ==> forall j :: index < j < r.value ==> !IsTopOperator(e, index, j)
    ensures r.None? ==> forall j :: index < j < |e| ==> !IsTopOperator(e, index, j)
  {
    OperatorFrom(e, index, index + 1)
  }

  function OperatorFrom(e: seq<string>, index: int, i: nat): (r: Option<nat>)
    requires -1 <= index < i <= |e|
    requires forall j :: index < j < i ==> !IsTopOperator(e, index, j)
    ensures r.Some? ==> i <= r.value < |e| && IsTopOperator(e, index, r.value)
    ensures r.Some? ==> forall j :: index < j < r.value ==> !IsTopOperator(e, index, j)
    ensures r.None? ==> forall j :: index < j < |e| ==> !IsTopOperator(e, index, j)
    decreases |e| - i
  {
    if i == |e| then None
    else if IsTopOperator(e, index, i) then Some(i)
    else OperatorFrom(e, index, i + 1)
  }

  /** After an operand that is not a bracket, the next operator is the
      token right behind it. */
  lemma OperatorAfterOperand(e: seq<string>, index: int)
    requires -1 <= index && index + 2 < |e|
    requires !IsOperator(e[index + 1]) && TokenDepth(e[index + 1], false) == 0 && IsOperator(e[index + 2])
    ensures NextOperator(e, index) == Some(index + 2)
  {
    assert TokenDepth(e[index + 2], false) == 0;
    assert Depth(e, index + 1, index + 2, false) == 0;
    assert Depth(e, index + 1, index + 3, false) == 0;
    assert !IsTopOperator(e, index, index + 1);
    assert IsTopOperator(e, index, index + 2);
  }

  /** With no operator token after `index`, there is no next operator. */
  lemma NoOperatorLeft(e: seq<string>, index: int)
    requires -1 <= index < |e|
    requires forall k :: index < k < |e| ==> !IsOperator(e[k])
    ensures NextOperator(e, index) == None
  {
  }

  // ---------------------------------------------------------------------
  // nextTerm and previousTerm

  /** The first position `k` in `(lo, |e|]` where the parenthesis depth of
      `e[lo..k]` is back to zero, or `|e| + 1` when it never is. */
  function CloseFrom(e: seq<string>, lo: nat, k: nat): (c: nat)
    requires lo < k <= |e|
    requires forall m :: lo < m < k ==> Depth(e, lo, m, false) != 0
    ensures k <= c <= |e| + 1
    ensures c <= |e| ==> Depth(e, lo, c, false) == 0
    ensures forall m :: lo < m < c && m <= |e| ==> Depth(e, lo, m, false) != 0
    decreases |e| - k
  {
    if Depth(e, lo, k, false) == 0 then k
    else if k == |e| then |e| + 1
    else CloseFrom(e, lo, k + 1)
  }

  /** The operand after the operator at `index`.  Unary operators in front
      of it are skipped, an operand that opens a parenthesis runs to its
      matching `)`, and any other operand is one token. */
  function NextTerm(e: seq<string>, index: nat, line: int): (r: Result<Span>)
    requires index < |e|
    ensures r.Ok? ==> index < r.value.lo < r.value.hi <= |e|
    ensures r.Ok? ==> forall k :: index < k < r.value.lo ==> e[k] in UnaryOperators && e[k] != "("
    ensures r.Ok? && e[r.value.lo] != "(" ==> r.value.hi == r.value.lo + 1 && e[r.value.lo] !in UnaryOperators
    ensures r.Ok? && e[r.value.lo] == "(" ==>
      Depth(e, r.value.lo, r.value.hi, false) == 0
      && forall m :: r.value.lo < m < r.value.hi ==> Depth(e, r.value.lo, m, false) != 0
    ensures r.Err? ==> r.line == line
    decreases |e| - index
  {
    if index == |e| - 1 then Err(line, "expected another token in expression")
    else
      var lo := index + 1;
      if e[lo] != "(" then
        if e[lo] in UnaryOperators then
          var r := NextTerm(e, lo, line);
          if r.Ok? then Ok(r.value) else r
        else Ok(Span(lo, lo + 1))
      else
        var c := CloseFrom(e, lo, lo + 1);
        if c <= |e| then Ok(Span(lo, c))
        else Err(line, "brackets opened in expression but never closed")
  }

  /** The first position `i` at or below `k`, scanning down, where the
      parenthesis depth of `e[i..hi]` is zero, or `-1` when there is none. */
  function OpenFrom(e: seq<string>, hi: nat, k: int): (o: int)
    requires -1 <= k < hi <= |e|
    requires forall m :: k < m < hi ==> Depth(e, m, hi, false) != 0
    ensures -1 <= o <= k
    ensures o >= 0 ==> Depth(e, o, hi, false) == 0
    ensures forall m :: o < m < hi ==> Depth(e, m, hi, false) != 0
    decreases k + 1
  {
    if k == -1 then -1
    else if Depth(e, k, hi, false) == 0 then k
    else OpenFrom(e, hi, k - 1)
  }

  /** The operand before the operator at `index`: one token, or the
      parenthesised group that ends just before `index`. */
  function PreviousTerm(e: seq<string>, index: nat, line: int): (r: Result<Span>)
    requires index <= |e|
    ensures r.Ok? ==> r.value.lo < r.value.hi == index
    ensures r.Ok? && e[index - 1] != ")" ==> r.value.lo == index - 1
    ensures r.Ok? && e[index - 1] == ")" ==>
      Depth(e, r.value.lo, index, false) == 0
      && forall m :: r.value.lo < m < index ==> Depth(e, m, index, false) != 0
    ensures r.Err? ==> r.line == line
  {
    if index == 0 then Err(line, "no previous term")
    else if e[index - 1] != ")" then Ok(Span(index - 1, index))
    else
      var o := OpenFrom(e, index, index - 1);
      if o >= 0 then Ok(Span(o, index))
      else Err(line, "brackets closed in expression but never opened")
  }

  // ---------------------------------------------------------------------
  // Enclosing brackets

  predicate IsPair(a: string, b: string) {
    (a == "(" && b == ")") || (a == "{" && b == "}")
  }

  /** The first and last tokens are a bracket pair, and the first bracket
      is still open at every position before the last two tokens. */
  predicate Encloses(e: seq<string>) {
    |e| >= 3 && IsPair(e[0], e[|e| - 1])
    && forall i :: 0 < i <= |e| - 2 ==> Depth(e, 0, i, true) != 0
  }

  /** Whether the bracket depth reaches zero after one of the tokens
      `e[i..n]`, given the depth `Depth(e, 0, i)`. */
  function ClosesBefore(e: seq<string>, i: nat, n: nat): (b: bool)
    requires i <= n <= |e|
    ensures !b ==> forall k :: i < k <= n ==> Depth(e, 0, k, true) != 0
    ensures b ==> exists k :: i < k <= n && Depth(e, 0, k, true) == 0
    decreases n - i
  {
    if i == n then false
    else if Depth(e, 0, i + 1, true) == 0 then
      var k := i + 1;
      assert i < k <= n && Depth(e, 0, k, true) == 0;
      true
    else
      var r := ClosesBefore(e, i + 1, n);
      r
  }

  /** The first step of the expression type checker: a pair of brackets
      around the whole expression is removed; `()` alone is an error. */
  function StripOuter(e: seq<string>, line: int): (r: Result<seq<string>>)
    requires |e| > 0
    ensures r.Err? <==> |e| == 2 && IsPair(e[0], e[1])
    ensures r.Ok? && Encloses(e) ==> r.value == e[1..|e| - 1]
    ensures r.Ok? && !Encloses(e) ==> r.value == e
    ensures r.Err? ==> r.line == line
  {
    if IsPair(e[0], e[|e| - 1]) then
      if |e| == 2 then Err(line, "Expression is empty")
      else if ClosesBefore(e, 0, |e| - 2) then Ok(e)
      else Ok(e[1..|e| - 1])
    else Ok(e)
  }

  /** Brackets around a body whose depth never drops below zero are
      always removed. */
  lemma WrappedIsStripped(open: string, close: string, body: seq<string>, line: int)
    requires IsPair(open, close) && |body| > 0
    requires forall i :: 0 <= i <= |body| ==> Depth(body, 0, i, true) >= 0
    ensures StripOuter([open] + body + [close], line) == Ok(body)
  {
    var e := [open] + body + [close];
    assert forall k :: 0 <= k < |body| ==> e[1 + k] == body[k];
    forall i | 0 < i <= |e| - 2 ensures Depth(e, 0, i, true) != 0 {
      OpenedDepth(e, body, i);
    }
    assert !ClosesBefore(e, 0, |e| - 2);
    assert e[1..|e| - 1] == body;
  }

  /** Behind an opening bracket, a body whose prefixes never have negative
      depth keeps the depth at one or more. */
  lemma OpenedDepth(e: seq<string>, body: seq<string>, i: nat)
    requires |e| == |body| + 2 && TokenDepth(e[0], true) == 1
    requires forall k :: 0 <= k < |body| ==> e[1 + k] == body[k]
    requires forall j :: 0 <= j <= |body| ==> Depth(body, 0, j, true) >= 0
    requires 0 < i <= |body| + 1
    ensures Depth(e, 0, i, true) >= 1
  {
    DepthFront(e, 0, i, true);
    DepthShift(body, e, 0, i - 1, 1, true);
  }

  /** `( a ) + ( b )` keeps its brackets: the first one closes early. */
  lemma SeparateGroupsKept()
    ensures StripOuter(["(", "a", ")", "+", "(", "b", ")"], 0) == Ok(["(", "a", ")", "+", "(", "b", ")"])
  {
    var e := ["(", "a", ")", "+", "(", "b", ")"];
    assert Depth(e, 0, 3, true) == 0;
    assert !Encloses(e);
  }
}
