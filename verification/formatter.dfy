/** The command-line tool's indenter for generated Go text: every line is
    indented by the brace depth reached at the end of the lines before it. */
module Formatter {
  import opened GoText

  /** The scan state carried from character to character and from line to
      line: the net count of braces outside string literals, and whether a
      string literal is open. */
  datatype Depth = Depth(count: int, inString: bool)

  const Start: Depth := Depth(0, false)

  function Step(d: Depth, c: char): Depth {
    if c == '"' then Depth(d.count, !d.inString)
    else if c == '{' && !d.inString then Depth(d.count + 1, d.inString)
    else if c == '}' && !d.inString then Depth(d.count - 1, d.inString)
    else d
  }

  /** The state after reading `s` from state `d`. */
  function ScanText(d: Depth, s: string): Depth
    decreases |s|
  {
    if |s| == 0 then d else ScanText(Step(d, s[0]), s[1..])
  }

  lemma {:induction false} ScanAppend(d: Depth, a: string, b: string)
    ensures ScanText(d, a + b) == ScanText(ScanText(d, a), b)
    decreases |a|
  {
    if |a| == 0 {
      assert a + b == b;
    } else {
      assert (a + b)[1..] == a[1..] + b;
      ScanAppend(Step(d, a[0]), a[1..], b);
    }
  }

  /** The state at the start of line `k`: the lines before it, read in order
      (the newlines between them are neither quotes nor braces). */
  function DepthBefore(lines: seq<string>, k: nat): Depth
    requires k <= |lines|
  {
    ScanText(Start, Concat(lines[..k]))
  }

  function Spaces(n: nat): (r: string)
    ensures |r| == n && forall i :: 0 <= i < n ==> r[i] == ' '
  {
    if n == 0 then "" else Spaces(n - 1) + " "
  }

  /** `tabSize` spaces per level of depth, and none for a depth or a tab
      size that is not positive. */
  function Indent(tabSize: int, depth: int): (r: string)
    ensures forall i :: 0 <= i < |r| ==> r[i] == ' '
    ensures |r| == (if tabSize > 0 && depth > 0 then tabSize * depth else 0)
  {
    Spaces(if tabSize > 0 && depth > 0 then tabSize * depth else 0)
  }

  /** What line `k` becomes: its indentation, the line itself, a newline. */
  function FormattedLine(lines: seq<string>, tabSize: int, k: nat): string
    requires k < |lines|
  {
    Indent(tabSize, DepthBefore(lines, k).count) + lines[k] + "\n"
  }

  /** The output for the first `n` lines. */
  function FormattedPrefix(lines: seq<string>, tabSize: int, n: nat): string
    requires n <= |lines|
  {
    if n == 0 then "" else FormattedPrefix(lines, tabSize, n - 1) + FormattedLine(lines, tabSize, n - 1)
  }

  /** Formats `transpiled` with `tabSize` spaces per brace level. */
  method Format(transpiled: string, tabSize: int) returns (formatted: string)
    ensures var lines := Split(transpiled, "\n");
      formatted == FormattedPrefix(lines, tabSize, |lines|)
    ensures tabSize <= 0 ==> formatted == transpiled + "\n"
    ensures var first := Split(transpiled, "\n")[0];
      |first| < |formatted| && formatted[..|first| + 1] == first + "\n"
  {
    var lines := Split(transpiled, "\n");
    var state := Start;
    var bracketScoreAtEnd := 0;
    formatted := "";
    for n := 0 to |lines|
      invariant formatted == FormattedPrefix(lines, tabSize, n)
      invariant state == DepthBefore(lines, n)
      invariant bracketScoreAtEnd == state.count
    {
      var line := lines[n];
      var indent := IndentLine(tabSize, bracketScoreAtEnd);
      formatted := formatted + indent + line;
      var next := ScanLine(state, line);
      formatted := formatted + "\n";
      assert formatted == FormattedPrefix(lines, tabSize, n) + FormattedLine(lines, tabSize, n);
      DepthAdvance(lines, n);
      state := next;
      bracketScoreAtEnd := state.count;
    }
    OutputShape(transpiled, tabSize);
  }

  /** The whole-output consequences of the line-by-line definition. */
  lemma OutputShape(transpiled: string, tabSize: int)
    ensures var lines := Split(transpiled, "\n");
      var out := FormattedPrefix(lines, tabSize, |lines|);
      (tabSize <= 0 ==> out == transpiled + "\n")
      && |lines[0]| < |out| && out[..|lines[0]| + 1] == lines[0] + "\n"
  {
    var lines := Split(transpiled, "\n");
    assert lines[..|lines|] == lines;
    if tabSize <= 0 {
      UnindentedOutput(lines, tabSize, |lines|);
    }
    FirstLineFirst(lines, tabSize, |lines|);
  }

  /** The spaces written before a line: `depth` rounds of `tabSize` spaces. */
  method IndentLine(tabSize: int, depth: int) returns (s: string)
    ensures s == Indent(tabSize, depth)
  {
    s := "";
    var spaces := 0;
    while spaces < depth
      invariant 0 <= spaces <= if depth > 0 then depth else 0
      invariant s == Spaces(if tabSize > 0 then spaces * tabSize else 0)
    {
      var k := 0;
      while k < tabSize
        invariant 0 <= k <= if tabSize > 0 then tabSize else 0
        invariant s == Spaces((if tabSize > 0 then spaces * tabSize else 0) + k)
      {
        s := s + " ";
        k := k + 1;
      }
      assert (spaces + 1) * tabSize == spaces * tabSize + tabSize;
      spaces := spaces + 1;
    }
    assert spaces * tabSize == tabSize * spaces;
  }

  /** The quote and brace scan over one line. */
  method ScanLine(d: Depth, line: string) returns (e: Depth)
    ensures e == ScanText(d, line)
  {
    var bracketCount := d.count;
    var inString := d.inString;
    for i := 0 to |line|
      invariant Depth(bracketCount, inString) == ScanText(d, line[..i])
    {
      ScanAppend(d, line[..i], [line[i]]);
      assert line[..i + 1] == line[..i] + [line[i]];
      if line[i] == '"' {
        inString := !inString;
      } else if line[i] == '{' {
        if !inString {
          bracketCount := bracketCount + 1;
        }
      } else if line[i] == '}' {
        if !inString {
          bracketCount := bracketCount - 1;
        }
      }
    }
    assert line[..|line|] == line;
    e := Depth(bracketCount, inString);
  }

  lemma DepthAdvance(lines: seq<string>, n: nat)
    requires n < |lines|
    ensures DepthBefore(lines, n + 1) == ScanText(DepthBefore(lines, n), lines[n])
  {
    ConcatSnoc(lines[..n], lines[n]);
    assert lines[..n + 1] == lines[..n] + [lines[n]];
    ScanAppend(Start, Concat(lines[..n]), lines[n]);
  }

  /** Without a positive tab size the lines come back joined as they were,
      with one newline after the last. */
  lemma {:induction false} UnindentedOutput(lines: seq<string>, tabSize: int, n: nat)
    requires tabSize <= 0 && 0 < n <= |lines|
    ensures FormattedPrefix(lines, tabSize, n) == Join(lines[..n], "\n") + "\n"
  {
    if n == 1 {
      assert lines[..1] == [lines[0]];
    } else {
      UnindentedOutput(lines, tabSize, n - 1);
      JoinSnoc(lines[..n - 1], lines[n - 1]);
      assert lines[..n] == lines[..n - 1] + [lines[n - 1]];
    }
  }

  lemma {:induction false} JoinSnoc(ws: seq<string>, w: string)
    requires |ws| > 0
    ensures Join(ws + [w], "\n") == Join(ws, "\n") + "\n" + w
    decreases |ws|
  {
    if |ws| == 1 {
      assert ws + [w] == [ws[0], w];
      assert [ws[0], w][1..] == [w];
    } else {
      assert (ws + [w])[1..] == ws[1..] + [w];
      JoinSnoc(ws[1..], w);
    }
  }

  /** The first line is never indented and leads the output. */
  lemma {:induction false} FirstLineFirst(lines: seq<string>, tabSize: int, n: nat)
    requires 0 < n <= |lines|
    ensures |lines[0]| < |FormattedPrefix(lines, tabSize, n)|
    ensures FormattedPrefix(lines, tabSize, n)[..|lines[0]| + 1] == lines[0] + "\n"
  {
    if n == 1 {
      assert lines[..0] == [];
      assert Indent(tabSize, DepthBefore(lines, 0).count) == "";
    } else {
      FirstLineFirst(lines, tabSize, n - 1);
    }
  }

  /** A closed string literal leaves the depth as it found it, whatever
      braces it contains. */
  lemma {:induction false} StringLiteralKeepsDepth(count: int, body: string)
    requires forall i :: 0 <= i < |body| ==> body[i] != '"'
    ensures ScanText(Depth(count, false), "\"" + body + "\"") == Depth(count, false)
  {
    ScanAppend(Depth(count, false), "\"" + body, "\"");
    ScanAppend(Depth(count, false), "\"", body);
    InsideString(count, body);
  }

  lemma {:induction false} InsideString(count: int, body: string)
    requires forall i :: 0 <= i < |body| ==> body[i] != '"'
    ensures ScanText(Depth(count, true), body) == Depth(count, true)
    decreases |body|
  {
    if |body| > 0 {
      InsideString(count, body[1..]);
    }
  }
}
