/** Array type annotations (src/transpiler/collections.go): the matching
    square bracket of a group, and annotations such as `int[5]`.
 */
module ArrayTypes {
  import opened Results
  import opened GoText
  import opened Types
  import opened Symbols

  // ---------------------------------------------------------------------
  // squareBracketEnd

  function SquareDepth(c: char): int {
    if c == '[' then 1 else if c == ']' then -1 else 0
  }

  /** The net square-bracket depth of `s[a..b]`. */
  function SquareNet(s: string, a: nat, b: nat): int
    requires a <= b <= |s|
    decreases b - a
  {
    if a == b then 0 else SquareNet(s, a, b - 1) + SquareDepth(s[b - 1])
  }

  /** The first index at or after `start` where the square-bracket depth
      counted from `start` is back to zero.  A first character that is not
      a bracket leaves the depth at zero, so `start` itself is returned. */
  function SquareBracketEnd(s: string, start: nat, line: int): (r: Result<nat>)
    ensures r.Ok? ==> start <= r.value < |s| && SquareNet(s, start, r.value + 1) == 0
    ensures r.Ok? ==> forall j :: start < j <= r.value ==> SquareNet(s, start, j) != 0
    ensures r.Err? ==> forall j :: start < j <= |s| ==> SquareNet(s, start, j) != 0
    ensures r.Err? ==> r.line == line
  {
    if start >= |s| then Err(line, "square bracket opened but never closed")
    else BracketEndFrom(s, start, start, line)
  }

  function BracketEndFrom(s: string, start: nat, i: nat, line: int): (r: Result<nat>)
    requires start <= i <= |s|
    requires forall j :: start < j <= i ==> SquareNet(s, start, j) != 0
    ensures r.Ok? ==> i <= r.value < |s| && SquareNet(s, start, r.value + 1) == 0
    ensures r.Ok? ==> forall j :: start < j <= r.value ==> SquareNet(s, start, j) != 0
    ensures r.Err? ==> forall j :: start < j <= |s| ==> SquareNet(s, start, j) != 0
    ensures r.Err? ==> r.line == line
    decreases |s| - i
  {
    if i == |s| then Err(line, "square bracket opened but never closed")
    else if SquareNet(s, start, i + 1) == 0 then Ok(i)
    else BracketEndFrom(s, start, i + 1, line)
  }

  /** A bracket group `[w]` whose text has no square brackets ends at its
      own `]`, whatever follows it. */
  lemma GroupEnd(w: string, rest: string, line: int)
    requires forall k :: 0 <= k < |w| ==> w[k] != '[' && w[k] != ']'
    ensures SquareBracketEnd("[" + w + "]" + rest, 0, line) == Ok(|w| + 1)
  {
    var s := "[" + w + "]" + rest;
    InsideGroup(s, w, |w| + 1);
    assert SquareNet(s, 0, |w| + 2) == SquareNet(s, 0, |w| + 1) - 1;
    EndAt(s, 0, 0, |w| + 1, line);
  }

  /** The scan stops at the first place where the depth is back to zero. */
  lemma {:induction false} EndAt(s: string, start: nat, i: nat, k: nat, line: int)
    requires start <= i <= k < |s|
    requires forall j :: start < j <= i ==> SquareNet(s, start, j) != 0
    requires forall j :: i < j <= k ==> SquareNet(s, start, j) != 0
    requires SquareNet(s, start, k + 1) == 0
    ensures BracketEndFrom(s, start, i, line) == Ok(k)
    decreases k - i
  {
    if i < k {
      EndAt(s, start, i + 1, k, line);
    }
  }

  /** Behind the `[` of `[w]`, the depth stays at one up to the `]`. */
  lemma {:induction false} InsideGroup(s: string, w: string, i: nat)
    requires |s| >= |w| + 2 && s[0] == '[' && s[|w| + 1] == ']'
    requires forall k :: 0 <= k < |w| ==> s[1 + k] == w[k] && w[k] != '[' && w[k] != ']'
    requires 1 <= i <= |w| + 1
    ensures SquareNet(s, 0, i) == 1
    ensures forall j :: 0 < j <= i ==> SquareNet(s, 0, j) != 0
    decreases i
  {
    if i > 1 {
      InsideGroup(s, w, i - 1);
      assert s[i - 1] == w[i - 2];
    }
  }

  // ---------------------------------------------------------------------
  // parseArrayType

  /** The loop over the dimension part of an annotation, from the suffix
      `s`, with bracket count `count` and the digits `cur` read since the
      last `]`.  A group that is still open at the end is dropped. */
  function ScanDims(s: string, count: nat, cur: string, line: int): (r: Result<seq<int>>)
    requires count <= 1 && AllDigits(cur)
    ensures r.Ok? ==> forall i :: 0 <= i < |r.value| ==> 0 <= r.value[i] <= MaxInt64
    ensures r.Err? ==> r.line == line
    decreases |s|
  {
    if |s| == 0 then Ok([])
    else if s[0] == '[' then
      if count != 0 then Err(line, "invalid square bracket opening in array type annotation")
      else ScanDims(s[1..], 1, cur, line)
    else if s[0] == ']' then
      if count != 1 then Err(line, "invalid square bracket closing in array type annotation")
      else
        var n := Atoi(cur);
        if !n.ok then Err(line, "failed to convert " + cur + " to integer in array type annotation")
        else
          var rest :- ScanDims(s[1..], 0, "", line);
          Ok([n.n] + rest)
    else if IsDigit(s[0]) then ScanDims(s[1..], count, cur + [s[0]], line)
    else Err(line, "unexpected character in array type annotation")
  }

  /** Reads an annotation such as `int[5]`: a base type other than IO
      before the first `[`, then one dimension per `[digits]` group. */
  function ParseArrayType(typeWord: string, line: int): (r: Result<ArrayType>)
    ensures FindFrom(typeWord, "[", 0) == |typeWord| ==> r.Err?
    ensures r.Ok? ==> var k := FindFrom(typeWord, "[", 0);
      k < |typeWord| && TypeName(r.value.baseType) == typeWord[..k]
    ensures r.Ok? ==> r.value.baseType != IO
    ensures r.Ok? ==> forall i :: 0 <= i < |r.value.dimensions| ==> 0 <= r.value.dimensions[i] <= MaxInt64
    ensures r.Err? ==> r.line == line
  {
    var k := FindFrom(typeWord, "[", 0);
    if k == |typeWord| then Err(line, "array type without square brackets")
    else
      var t :- ReadType(typeWord[..k], line);
      if t == IO then Err(line, "arrays cannot have the data type IO")
      else
        var dims :- ScanDims(typeWord[k..], 0, "", line);
        Ok(ArrayType(dims, t))
  }

  /** The text of a dimension list, one `[n]` group per dimension. */
  function DimsText(ds: seq<int>): string
    requires forall i :: 0 <= i < |ds| ==> ds[i] >= 0
  {
    if |ds| == 0 then "" else "[" + Itoa(ds[0]) + "]" + DimsText(ds[1..])
  }

  /** The Stella text of an array type. */
  function ArrayTypeText(a: ArrayType): string
    requires forall i :: 0 <= i < |a.dimensions| ==> a.dimensions[i] >= 0
  {
    TypeName(a.baseType) + DimsText(a.dimensions)
  }

  /** Reading the text of an array type gives it back, for every base type
      other than IO and every list of dimensions that fit in an `int64`. */
  lemma ArrayTypeRoundTrip(a: ArrayType, line: int)
    requires a.baseType != IO && |a.dimensions| > 0
    requires forall i :: 0 <= i < |a.dimensions| ==> 0 <= a.dimensions[i] <= MaxInt64
    ensures ParseArrayType(ArrayTypeText(a), line) == Ok(a)
  {
    var name := TypeName(a.baseType);
    var text := ArrayTypeText(a);
    var k := |name|;
    assert text[..k] == name;
    assert text[k..] == DimsText(a.dimensions);
    assert forall j :: 0 <= j < k ==> text[j] != '[' by {
      match a.baseType
      case Int => case Float => case Bool => case Byte => case String => case IO =>
    }
    assert OccursAt(text, "[", k) by { assert text[k..k + 1] == "["; }
    FindFirst(text, "[", k, 0);
    ReadTypeName(a.baseType, line);
    ScanDimsText(a.dimensions, line);
  }

  /** The dimension loop reads back every list of dimension groups. */
  lemma {:induction false} ScanDimsText(ds: seq<int>, line: int)
    requires forall i :: 0 <= i < |ds| ==> 0 <= ds[i] <= MaxInt64
    ensures ScanDims(DimsText(ds), 0, "", line) == Ok(ds)
    decreases |ds|
  {
    if |ds| > 0 {
      var w := Itoa(ds[0]);
      var rest := DimsText(ds[1..]);
      var s := "[" + w + "]" + rest;
      assert s[1..] == w + ("]" + rest);
      ScanDigits(w, "]" + rest, "", line);
      assert "" + w == w;
      AtoiDigits(w);
      assert ("]" + rest)[1..] == rest;
      ScanDimsText(ds[1..], line);
      assert [ds[0]] + ds[1..] == ds;
    }
  }

  /** Inside an open group, digits are collected one by one. */
  lemma {:induction false} ScanDigits(w: string, tail: string, cur: string, line: int)
    requires AllDigits(w) && AllDigits(cur)
    ensures ScanDims(w + tail, 1, cur, line) == ScanDims(tail, 1, cur + w, line)
    decreases |w|
  {
    if |w| > 0 {
      assert (w + tail)[0] == w[0];
      assert (w + tail)[1..] == w[1..] + tail;
      ScanDigits(w[1..], tail, cur + [w[0]], line);
      assert cur + [w[0]] + w[1..] == cur + w;
    } else {
      assert w + tail == tail;
      assert cur + w == cur;
    }
  }

  /** An empty group has no number in it and is rejected. */
  lemma EmptyGroupRejected(line: int)
    ensures ParseArrayType("int[]", line).Err?
  {
    var s := "int[]";
    assert OccursAt(s, "[", 3) by { assert s[3..4] == "["; }
    FindFirst(s, "[", 3, 0);
    assert s[..3] == "int";
    assert s[3..] == "[]";
    assert "[]"[1..] == "]";
  }

  /** A group that is never closed is dropped without an error: `int[3`
      reads as an array type with no dimensions. */
  lemma UnclosedGroupDropped(line: int)
    ensures ParseArrayType("int[3", line) == Ok(ArrayType([], Int))
  {
    var s := "int[3";
    assert OccursAt(s, "[", 3) by { assert s[3..4] == "["; }
    FindFirst(s, "[", 3, 0);
    assert s[..3] == "int";
    assert s[3..] == "[3";
    assert "[3"[1..] == "3";
    assert "3"[1..] == "";
  }
}
