/** The return type a function's body must produce, found by walking back
    from the return line to the nearest function header
    (src/transpiler/collections.go, src/transpiler/tuple.go).  An array
    return looks up the base type of the header's annotation; a tuple
    return reads the header's last parenthesised group as a pattern.
 */
module ExpectedTypes {
  import opened Results
  import opened GoText
  import opened Types
  import opened Symbols
  import ArrayTypes
  import TuplePatterns
  import Functions

  /** True when `line` is a function header. */
  predicate IsHeader(line: string) {
    var ws := Fields(line);
    |ws| > 0 && ws[0] == "function"
  }

  /** True when `line` holds nothing but white space. */
  predicate IsBlank(line: string) {
    |Fields(line)| == 0
  }

  /** The base type of the array annotation on header line `k`: the third
      word from the end, before `=` and `{`. */
  function HeaderBaseType(line: string, k: nat): (r: Result<PrimType>)
    ensures r.Ok? ==> var ws := Fields(line);
      |ws| >= 3 && ArrayTypes.ParseArrayType(ws[|ws| - 3], k).Ok?
      && r.value == ArrayTypes.ParseArrayType(ws[|ws| - 3], k).value.baseType
    ensures r.Ok? ==> r.value != IO
  {
    var ws := Fields(line);
    if |ws| < 3 then Err(k, "index out of range")
    else
      var a :- ArrayTypes.ParseArrayType(ws[|ws| - 3], k);
      Ok(a.baseType)
  }

  /** Line `k` is a header, and every line after it up to line `n` is
      neither a header nor blank. */
  predicate ReachedUnbroken(lines: seq<string>, k: nat, n: nat) {
    k <= n < |lines| && IsHeader(lines[k])
    && forall j :: k < j <= n ==> !IsHeader(lines[j]) && !IsBlank(lines[j])
  }

  /** A line that is neither a header nor blank extends the run. */
  lemma UnbrokenExtends(lines: seq<string>, k: nat, n: nat)
    requires 0 < n < |lines| && ReachedUnbroken(lines, k, n - 1)
    requires !IsHeader(lines[n]) && !IsBlank(lines[n])
    ensures ReachedUnbroken(lines, k, n)
  {
    forall j | k < j <= n ensures !IsHeader(lines[j]) && !IsBlank(lines[j]) {
      if j < n {
        assert k < j <= n - 1;
      }
    }
  }

  /** The search as the source writes it: every line from `lineNum` back is
      split into words and its first word read, so a blank line met before
      the header stops the search with an index error. */
  function ExpectedTypeAsWritten(lines: seq<string>, lineNum: nat): (r: Result<PrimType>)
    ensures r.Ok? ==> r.value != IO
    ensures r.Ok? ==> lineNum < |lines| && !IsBlank(lines[lineNum])
    decreases lineNum
  {
    if lineNum >= |lines| then Err(lineNum, "index out of range")
    else if IsBlank(lines[lineNum]) then Err(lineNum, "index out of range")
    else if IsHeader(lines[lineNum]) then HeaderBaseType(lines[lineNum], lineNum)
    else if lineNum == 0 then Err(0, "found no function declaration")
    else ExpectedTypeAsWritten(lines, lineNum - 1)
  }

  /** The search as written succeeds only by reaching a header with no
      header and no blank line after it up to the starting line, and gives
      that header's base type. */
  lemma {:induction false} AsWrittenNeedsUnbrokenRun(lines: seq<string>, n: nat)
    requires ExpectedTypeAsWritten(lines, n).Ok?
    ensures exists k: nat :: ReachedUnbroken(lines, k, n) && ExpectedTypeAsWritten(lines, n) == HeaderBaseType(lines[k], k)
    decreases n
  {
    if IsHeader(lines[n]) {
      SearchesStopAtHeader(lines, n);
      assert ReachedUnbroken(lines, n, n);
    } else {
      SearchesStepBack(lines, n);
      AsWrittenNeedsUnbrokenRun(lines, n - 1);
      var k: nat :| ReachedUnbroken(lines, k, n - 1) && ExpectedTypeAsWritten(lines, n - 1) == HeaderBaseType(lines[k], k);
      UnbrokenExtends(lines, k, n);
    }
  }

  /** The search with blank lines passed over, as the tuple search does:
      the base type of the nearest header at or before `lineNum`. */
  function ExpectedType(lines: seq<string>, lineNum: nat): (r: Result<PrimType>)
    ensures r.Ok? ==> r.value != IO
    decreases lineNum
  {
    if lineNum >= |lines| then Err(lineNum, "index out of range")
    else if IsHeader(lines[lineNum]) then HeaderBaseType(lines[lineNum], lineNum)
    else if lineNum == 0 then Err(0, "found no function declaration")
    else ExpectedType(lines, lineNum - 1)
  }

  /** No header lies in `lines[k + 1..n + 1]`. */
  predicate NoHeaderBetween(lines: seq<string>, k: nat, n: nat)
    requires n < |lines|
  {
    forall j :: k < j <= n ==> !IsHeader(lines[j])
  }

  /** The search finds the nearest header: when line `k` is a header and
      none follows it up to line `n`, the type is the one on line `k`. */
  lemma {:induction false} ExpectedTypeFindsHeader(lines: seq<string>, k: nat, n: nat)
    requires k <= n < |lines| && IsHeader(lines[k])
    requires NoHeaderBetween(lines, k, n)
    ensures ExpectedType(lines, n) == HeaderBaseType(lines[k], k)
    decreases n
  {
    if n > k {
      ExpectedTypeFindsHeader(lines, k, n - 1);
    }
  }

  /** Given a header whose annotation is the text of array type `a`, the
      search yields `a`'s base type from any line of the body. */
  lemma ExpectedTypeOfAnnotation(lines: seq<string>, k: nat, n: nat, a: ArrayType)
    requires k <= n < |lines| && IsHeader(lines[k])
    requires NoHeaderBetween(lines, k, n)
    requires a.baseType != IO && |a.dimensions| > 0
    requires forall i :: 0 <= i < |a.dimensions| ==> 0 <= a.dimensions[i] <= MaxInt64
    requires var ws := Fields(lines[k]); |ws| >= 3 && ws[|ws| - 3] == ArrayTypes.ArrayTypeText(a)
    ensures ExpectedType(lines, n) == Ok(a.baseType)
  {
    ExpectedTypeFindsHeader(lines, k, n);
    ArrayTypes.ArrayTypeRoundTrip(a, k);
  }

  /** Without blank lines between the header and the return line, the
      search as written agrees with the corrected one. */
  lemma {:induction false} AsWrittenWithoutBlanks(lines: seq<string>, k: nat, n: nat)
    requires k <= n < |lines| && IsHeader(lines[k])
    requires NoHeaderBetween(lines, k, n)
    requires forall j :: k < j <= n ==> !IsBlank(lines[j])
    ensures ExpectedTypeAsWritten(lines, n) == ExpectedType(lines, n)
    decreases n
  {
    if n > k {
      assert !IsBlank(lines[n]) && !IsHeader(lines[n]);
      SearchesStepBack(lines, n);
      AsWrittenWithoutBlanks(lines, k, n - 1);
    } else {
      SearchesStopAtHeader(lines, n);
    }
  }

  /** Both searches stop at a header with its base type. */
  lemma SearchesStopAtHeader(lines: seq<string>, n: nat)
    requires n < |lines| && IsHeader(lines[n])
    ensures ExpectedTypeAsWritten(lines, n) == HeaderBaseType(lines[n], n)
    ensures ExpectedType(lines, n) == HeaderBaseType(lines[n], n)
  {
    assert !IsBlank(lines[n]);
  }

  /** Both searches pass over a line that is neither a header nor blank. */
  lemma SearchesStepBack(lines: seq<string>, n: nat)
    requires 0 < n < |lines| && !IsBlank(lines[n]) && !IsHeader(lines[n])
    ensures ExpectedTypeAsWritten(lines, n) == ExpectedTypeAsWritten(lines, n - 1)
    ensures ExpectedType(lines, n) == ExpectedType(lines, n - 1)
  {
  }

  /** A blank line `b` between the header and the return line makes the
      search as written fail, where the corrected search finds the
      header's type.  For example, on the lines `function f() -> int[2] = {`,
      ``, `[1, 2]`, `}` the search from the return line `[1, 2]` stops at
      the blank line instead of reading `int`. */
  lemma {:induction false} BlankLineStopsAsWritten(lines: seq<string>, k: nat, b: nat, n: nat)
    requires k < b <= n < |lines| && IsHeader(lines[k]) && IsBlank(lines[b])
    requires NoHeaderBetween(lines, k, n)
    ensures ExpectedTypeAsWritten(lines, n).Err?
    ensures ExpectedType(lines, n) == HeaderBaseType(lines[k], k)
    decreases n
  {
    ExpectedTypeFindsHeader(lines, k, n);
    if n > b {
      BlankLineStopsAsWritten(lines, k, b, n - 1);
    }
  }

  /** The scan state of the tuple search, kept from one header to the
      next: whether a group has been opened, and the text gathered. */
  datatype PatternScan = PatternScan(isOpen: bool, acc: string)

  /** One header read from the right: characters `line[..i]` are still to
      be read, `count` is closed minus opened parentheses so far.  The
      text of the first parenthesised group from the right is gathered;
      once it has been opened and closed nothing more is read. */
  function ScanPatternLine(line: string, i: nat, count: int, st: PatternScan): (r: PatternScan)
    requires i <= |line|
    decreases i
  {
    if i == 0 then st
    else if count == 0 && st.isOpen then st
    else
      var c := line[i - 1];
      if c == '(' && count + 1 == 0 then st.(acc := [c] + st.acc)
      else
        var count' := if c == ')' then count - 1 else if c == '(' then count + 1 else count;
        var acc' := if c == ')' || c == '(' || st.isOpen then [c] + st.acc else st.acc;
        ScanPatternLine(line, i - 1, count', PatternScan(st.isOpen || count' != 0, acc'))
  }

  /** The tuple search over `lines[..k]` from the last line back: blank
      lines are skipped and every header is scanned with the state left
      by the one after it. */
  function PatternTextFrom(lines: seq<string>, k: nat, st: PatternScan): (r: PatternScan)
    requires k <= |lines|
    decreases k
  {
    if k == 0 then st
    else
      var line := lines[k - 1];
      var st' := if IsHeader(line) then ScanPatternLine(line, |line|, 0, st) else st;
      PatternTextFrom(lines, k - 1, st')
  }

  /** The pattern a tuple return on line `lineNum` must fit: the text the
      search gathers, read as a tuple annotation. */
  function ExpectedPattern(lines: seq<string>, lineNum: nat): (r: Result<TuplePattern>)
    ensures r.Ok? ==> (lineNum < |lines|
      && TuplePatterns.ParseTuplePattern(PatternTextFrom(lines, lineNum + 1, PatternScan(false, "")).acc, lineNum)
         == Ok(r.value))
    ensures r.Err? ==> r.line == lineNum
  {
    if lineNum >= |lines| then Err(lineNum, "index out of range")
    else TuplePatterns.ParseTuplePattern(PatternTextFrom(lines, lineNum + 1, PatternScan(false, "")).acc, lineNum)
  }

  /** Once a group has been read, later headers leave the state alone:
      only the nearest header counts. */
  lemma {:induction false} OpenedStays(lines: seq<string>, k: nat, st: PatternScan)
    requires k <= |lines| && st.isOpen
    ensures PatternTextFrom(lines, k, st) == st
    decreases k
  {
    if k > 0 {
      var line := lines[k - 1];
      assert line == [] || ScanPatternLine(line, |line|, 0, st) == st;
      OpenedStays(lines, k - 1, st);
    }
  }

  /** Characters without parentheses before any group is opened are
      passed over. */
  lemma {:induction false} SkipOutside(line: string, j: nat, i: nat, st: PatternScan)
    requires j <= i <= |line| && !st.isOpen
    requires forall m :: j <= m < i ==> line[m] != '(' && line[m] != ')'
    ensures ScanPatternLine(line, i, 0, st) == ScanPatternLine(line, j, 0, st)
    decreases i
  {
    if i > j {
      SkipOutside(line, j, i - 1, st);
    }
  }

  /** Inside the open group every character without parentheses is
      gathered in order. */
  lemma {:induction false} GatherInside(line: string, j: nat, i: nat, acc: string)
    requires j <= i <= |line|
    requires forall m :: j <= m < i ==> line[m] != '(' && line[m] != ')'
    ensures ScanPatternLine(line, i, -1, PatternScan(true, acc))
         == ScanPatternLine(line, j, -1, PatternScan(true, line[j..i] + acc))
    decreases i
  {
    if i > j {
      var c := line[i - 1];
      GatherInside(line, j, i - 1, [c] + acc);
      assert line[j..i - 1] + ([c] + acc) == line[j..i] + acc;
    } else {
      assert line[j..i] + acc == acc;
    }
  }

  /** A header ending in a parenthesised group without nested parentheses,
      followed by text without parentheses, yields that group. */
  lemma HeaderGroup(head: string, p: string, tail: string)
    requires Functions.NoParens(p) && Functions.NoParens(tail)
    ensures var line := head + "(" + p + ")" + tail;
      ScanPatternLine(line, |line|, 0, PatternScan(false, "")) == PatternScan(true, "(" + p + ")")
  {
    var line := head + "(" + p + ")" + tail;
    var open := |head|;
    var close := |head| + |p| + 1;
    assert line[open] == '(' && line[close] == ')';
    assert forall m :: close + 1 <= m < |line| ==> line[m] == tail[m - close - 1];
    SkipOutside(line, close + 1, |line|, PatternScan(false, ""));
    assert [line[close]] + "" == ")";
    assert ScanPatternLine(line, close + 1, 0, PatternScan(false, ""))
        == ScanPatternLine(line, close, -1, PatternScan(true, ")"));
    assert forall m :: open + 1 <= m < close ==> line[m] == p[m - open - 1];
    GatherInside(line, open + 1, close, ")");
    assert line[open + 1..close] == p;
    assert [line[open]] + (p + ")") == "(" + p + ")";
  }

  /** The tuple search from a body line finds the group of the nearest
      header: when line `k` is a header ending in the annotation text of a
      non-empty pattern `t`, the search from line `n` yields `t`. */
  lemma {:induction false} ExpectedPatternOfHeader(lines: seq<string>, k: nat, n: nat, head: string, tail: string,
                                                   t: TuplePattern)
    requires k <= n < |lines| && IsHeader(lines[k]) && NoHeaderBetween(lines, k, n)
    requires |t.dataTypes| > 0 && Functions.NoParens(tail)
    requires lines[k] == head + TuplePatterns.PatternText(t) + tail
    ensures ExpectedPattern(lines, n) == Ok(t)
  {
    var body := Join(TuplePatterns.NamesOf(t.dataTypes), ", ");
    assert Functions.NoParens(body) by { NamesNoParens(TuplePatterns.NamesOf(t.dataTypes)); }
    assert lines[k] == head + "(" + body + ")" + tail;
    HeaderGroup(head, body, tail);
    var st := PatternScan(true, "(" + body + ")");
    SearchReachesHeader(lines, k, n + 1);
    OpenedStays(lines, k, st);
    TuplePatterns.PatternRoundTrip(t, n);
  }

  /** Going back from line `n`, the search passes over everything after
      the nearest header untouched. */
  lemma {:induction false} SearchReachesHeader(lines: seq<string>, k: nat, m: nat)
    requires k < m <= |lines| && IsHeader(lines[k])
    requires forall j :: k < j < m ==> !IsHeader(lines[j])
    ensures PatternTextFrom(lines, m, PatternScan(false, ""))
         == PatternTextFrom(lines, k, ScanPatternLine(lines[k], |lines[k]|, 0, PatternScan(false, "")))
    decreases m
  {
    if m > k + 1 {
      SearchReachesHeader(lines, k, m - 1);
    }
  }

  /** Type names joined by ", " contain no parentheses. */
  lemma {:induction false} NamesNoParens(names: seq<string>)
    requires forall i :: 0 <= i < |names| ==> names[i] in TypeNames
    ensures Functions.NoParens(Join(names, ", "))
    decreases |names|
  {
    if |names| > 1 {
      NamesNoParens(names[1..]);
      assert names[0] in TypeNames;
    }
  }
}
