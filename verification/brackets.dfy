/** Brace and bracket matching across source lines: where a scope opened on
    one line ends, and where a bracket opened at a given character closes. */
module Brackets {
  import opened Results
  import opened GoText

  // ---------------------------------------------------------------------
  // Scope ends

  /** The scan state of the scope-end search: the open-brace count and
      whether any `{` has been seen yet. */
  datatype BraceState = BraceState(count: int, isOpen: bool)

  const Unopened: BraceState := BraceState(0, false)

  /** A `}` only counts once a `{` has been seen. */
  function BraceStep(st: BraceState, ch: char): BraceState {
    if ch == '{' then BraceState(st.count + 1, true)
    else if ch == '}' && st.isOpen then BraceState(st.count - 1, true)
    else st
  }

  function BraceScan(st: BraceState, s: string): BraceState
    decreases |s|
  {
    if |s| == 0 then st else BraceScan(BraceStep(st, s[0]), s[1..])
  }

  lemma {:induction false} BraceScanAppend(st: BraceState, a: string, b: string)
    ensures BraceScan(st, a + b) == BraceScan(BraceScan(st, a), b)
    decreases |a|
  {
    if |a| == 0 {
      assert a + b == b;
    } else {
      assert (a + b)[1..] == a[1..] + b;
      BraceScanAppend(BraceStep(st, a[0]), a[1..], b);
    }
  }

  /** The state just before character `c` of line `l`, scanning from the
      start of line `begin`. */
  function StateAt(lines: seq<string>, begin: nat, l: nat, c: nat): BraceState
    requires begin <= l < |lines| && c <= |lines[l]|
  {
    BraceScan(BraceScan(Unopened, Concat(lines[begin..l])), lines[l][..c])
  }

  /** Character `c` of line `l` is the `}` that brings the count back to
      zero after the first `{`. */
  predicate ClosesAt(lines: seq<string>, begin: nat, l: int, c: int) {
    begin <= l < |lines| && 0 <= c < |lines[l]| && lines[l][c] == '}'
    && StateAt(lines, begin, l, c).isOpen && StateAt(lines, begin, l, c).count == 1
  }

  /** `findScopeEnd`: the line holding the first closing position at or
      after line `begin`.  The error carries the 1-based line `begin + 1`. */
  function FindScopeEnd(lines: seq<string>, begin: nat): (r: Result<nat>)
    ensures r.Ok? ==> begin <= r.value < |lines|
    ensures r.Ok? ==> exists c :: (ClosesAt(lines, begin, r.value, c)
      && forall c' :: 0 <= c' < c ==> !ClosesAt(lines, begin, r.value, c'))
    ensures r.Ok? ==> forall l, c :: begin <= l < r.value ==> !ClosesAt(lines, begin, l, c)
    ensures r.Err? ==> r.line == begin + 1 && forall l, c :: !ClosesAt(lines, begin, l, c)
  {
    if begin >= |lines| then Err(begin + 1, "scope opened but never closed")
    else
      assert lines[begin..begin] == [];
      ScopeEndFrom(lines, begin, begin, 0, Unopened)
  }

  function ScopeEndFrom(lines: seq<string>, begin: nat, l: nat, c: nat, st: BraceState): (r: Result<nat>)
    requires begin <= l < |lines| && c <= |lines[l]|
    requires st == StateAt(lines, begin, l, c)
    requires forall l', c' :: begin <= l' < l ==> !ClosesAt(lines, begin, l', c')
    requires forall c' :: 0 <= c' < c ==> !ClosesAt(lines, begin, l, c')
    ensures r.Ok? ==> l <= r.value < |lines|
    ensures r.Ok? ==> exists c :: (ClosesAt(lines, begin, r.value, c)
      && forall c' :: 0 <= c' < c ==> !ClosesAt(lines, begin, r.value, c'))
    ensures r.Ok? ==> forall l', c' :: begin <= l' < r.value ==> !ClosesAt(lines, begin, l', c')
    ensures r.Err? ==> r.line == begin + 1 && forall l', c' :: !ClosesAt(lines, begin, l', c')
    decreases |lines| - l, |lines[l]| - c
  {
    var line := lines[l];
    if c < |line| then
      var ch := line[c];
      StepState(lines, begin, l, c);
      if ch == '}' && st.isOpen && st.count - 1 == 0 then
        assert ClosesAt(lines, begin, l, c);
        Ok(l)
      else
        ScopeEndFrom(lines, begin, l, c + 1, BraceStep(st, ch))
    else if l + 1 < |lines| then
      NextLineState(lines, begin, l);
      ScopeEndFrom(lines, begin, l + 1, 0, BraceScan(st, ""))
    else
      Err(begin + 1, "scope opened but never closed")
  }

  lemma StepState(lines: seq<string>, begin: nat, l: nat, c: nat)
    requires begin <= l < |lines| && c < |lines[l]|
    ensures StateAt(lines, begin, l, c + 1) == BraceStep(StateAt(lines, begin, l, c), lines[l][c])
  {
    var before := BraceScan(Unopened, Concat(lines[begin..l]));
    BraceScanAppend(before, lines[l][..c], [lines[l][c]]);
    assert lines[l][..c + 1] == lines[l][..c] + [lines[l][c]];
  }

  lemma NextLineState(lines: seq<string>, begin: nat, l: nat)
    requires begin <= l && l + 1 < |lines|
    ensures StateAt(lines, begin, l + 1, 0) == StateAt(lines, begin, l, |lines[l]|)
  {
    ConcatSnoc(lines[begin..l], lines[l]);
    assert lines[begin..l + 1] == lines[begin..l] + [lines[l]];
    assert lines[l][..|lines[l]|] == lines[l];
    assert lines[l + 1][..0] == "";
    BraceScanAppend(Unopened, Concat(lines[begin..l]), lines[l]);
  }

  /** Closers read before the first opener change nothing, so a line such
      as `} else {` opens a scope rather than closing one. */
  lemma {:induction false} LeadingClosersIgnored(s: string)
    requires forall i :: 0 <= i < |s| ==> s[i] != '{'
    ensures BraceScan(Unopened, s) == Unopened
    decreases |s|
  {
    if |s| > 0 {
      LeadingClosersIgnored(s[1..]);
    }
  }

  // ---------------------------------------------------------------------
  // Bracket ends

  datatype Location = Location(lineNum: nat, charIndex: nat)

  /** The closer `findBracketEnd` pairs with each of the three openers it
      accepts. */
  function Closer(open: char): (r: Option<char>)
    ensures r.Some? <==> open in {'(', '{', '['}
  {
    if open == '(' then Some(')')
    else if open == '{' then Some('}')
    else if open == '[' then Some(']')
    else None
  }

  /** Openers minus closers in `s`. */
  function Net(open: char, close: char, s: string): int
    decreases |s|
  {
    if |s| == 0 then 0
    else (if s[0] == open then 1 else if s[0] == close then -1 else 0) + Net(open, close, s[1..])
  }

  lemma {:induction false} NetAppend(open: char, close: char, a: string, b: string)
    ensures Net(open, close, a + b) == Net(open, close, a) + Net(open, close, b)
    decreases |a|
  {
    if |a| > 0 {
      assert (a + b)[1..] == a[1..] + b;
      NetAppend(open, close, a[1..], b);
    } else {
      assert a + b == b;
    }
  }

  /** Where the scan of line `i` starts. */
  function LineStart(lineNum: nat, charIndex: nat, i: nat): nat {
    if i == lineNum then charIndex else 0
  }

  function Skip(line: string, k: nat): string {
    if k <= |line| then line[k..] else ""
  }

  /** The characters scanned on the lines before line `i`. */
  function ScannedBefore(lines: seq<string>, lineNum: nat, charIndex: nat, i: nat): string
    requires lineNum <= i <= |lines|
    decreases i - lineNum
  {
    if i == lineNum then ""
    else ScannedBefore(lines, lineNum, charIndex, i - 1) + Skip(lines[i - 1], LineStart(lineNum, charIndex, i - 1))
  }

  /** The characters scanned up to and including character `j` of line `i`. */
  function ScannedThrough(lines: seq<string>, lineNum: nat, charIndex: nat, i: nat, j: nat): string
    requires lineNum <= i < |lines| && LineStart(lineNum, charIndex, i) <= j < |lines[i]|
  {
    ScannedBefore(lines, lineNum, charIndex, i) + lines[i][LineStart(lineNum, charIndex, i)..j + 1]
  }

  /** Position (i, j) is scanned and the count is zero right after it. */
  predicate BracketClosesAt(open: char, close: char, lines: seq<string>, lineNum: nat, charIndex: nat, i: int, j: int) {
    lineNum <= i < |lines| && LineStart(lineNum, charIndex, i) <= j < |lines[i]|
    && Net(open, close, ScannedThrough(lines, lineNum, charIndex, i, j)) == 0
  }

  /** `findBracketEnd`: the first scanned position after which the count of
      `bracketType` minus its closer is zero.  The count is checked after
      every character, so a first character that is not a bracket is its
      own end. */
  function FindBracketEnd(bracketType: char, lines: seq<string>, lineNum: nat, charIndex: nat): (r: Result<Location>)
    ensures Closer(bracketType).None? ==> r.Err?
    ensures r.Ok? ==> (Closer(bracketType).Some?
      && BracketClosesAt(bracketType, Closer(bracketType).value, lines, lineNum, charIndex, r.value.lineNum, r.value.charIndex))
    ensures r.Ok? ==> forall i, j :: ((i < r.value.lineNum || (i == r.value.lineNum && j < r.value.charIndex))
      ==> !BracketClosesAt(bracketType, Closer(bracketType).value, lines, lineNum, charIndex, i, j))
    ensures r.Err? && Closer(bracketType).Some? ==> (r.line == lineNum + 1
      && forall i, j :: !BracketClosesAt(bracketType, Closer(bracketType).value, lines, lineNum, charIndex, i, j))
  {
    match Closer(bracketType)
    case None => Err(0, "invalid character used as bracket type")
    case Some(close) =>
      if lineNum >= |lines| then Err(lineNum + 1, "bracket opened but never closed")
      else BracketEndFrom(bracketType, close, lines, lineNum, charIndex, lineNum, LineStart(lineNum, charIndex, lineNum), 0)
  }

  function BracketEndFrom(open: char, close: char, lines: seq<string>, lineNum: nat, charIndex: nat,
                          i: nat, j: nat, count: int): (r: Result<Location>)
    requires lineNum <= i < |lines| && LineStart(lineNum, charIndex, i) <= j
    requires j <= |lines[i]| || (i == lineNum && j == charIndex)
    requires count == Net(open, close, ScannedBefore(lines, lineNum, charIndex, i)
                                     + (if j <= |lines[i]| then lines[i][LineStart(lineNum, charIndex, i)..j] else ""))
    requires NoCloseBefore(open, close, lines, lineNum, charIndex, i, j)
    ensures r.Ok? ==> BracketClosesAt(open, close, lines, lineNum, charIndex, r.value.lineNum, r.value.charIndex)
    ensures r.Ok? ==> NoCloseBefore(open, close, lines, lineNum, charIndex, r.value.lineNum, r.value.charIndex)
    ensures r.Err? ==> r.line == lineNum + 1 && forall i', j' :: !BracketClosesAt(open, close, lines, lineNum, charIndex, i', j')
    decreases |lines| - i, |lines[i]| + charIndex - j
  {
    var line := lines[i];
    var start := LineStart(lineNum, charIndex, i);
    if j < |line| then
      var next := count + (if line[j] == open then 1 else if line[j] == close then -1 else 0);
      ThroughStep(open, close, lines, lineNum, charIndex, i, j);
      if next == 0 then Ok(Location(i, j))
      else
        NoCloseNext(open, close, lines, lineNum, charIndex, i, j);
        BracketEndFrom(open, close, lines, lineNum, charIndex, i, j + 1, next)
    else if i + 1 < |lines| then
      LineStep(open, close, lines, lineNum, charIndex, i, j);
      NoCloseNextLine(open, close, lines, lineNum, charIndex, i, j);
      BracketEndFrom(open, close, lines, lineNum, charIndex, i + 1, 0, count)
    else
      NoCloseAtAll(open, close, lines, lineNum, charIndex, i, j);
      Err(lineNum + 1, "bracket opened but never closed")
  }

  /** No position before (i, j) brings the count to zero. */
  ghost predicate NoCloseBefore(open: char, close: char, lines: seq<string>, lineNum: nat, charIndex: nat, i: int, j: int) {
    forall i', j' :: (i' < i || (i' == i && j' < j)) ==> !BracketClosesAt(open, close, lines, lineNum, charIndex, i', j')
  }

  lemma NoCloseNext(open: char, close: char, lines: seq<string>, lineNum: nat, charIndex: nat, i: int, j: int)
    requires NoCloseBefore(open, close, lines, lineNum, charIndex, i, j)
    requires !BracketClosesAt(open, close, lines, lineNum, charIndex, i, j)
    ensures NoCloseBefore(open, close, lines, lineNum, charIndex, i, j + 1)
  {
  }

  lemma NoCloseNextLine(open: char, close: char, lines: seq<string>, lineNum: nat, charIndex: nat, i: int, j: int)
    requires 0 <= i < |lines| && |lines[i]| <= j
    requires NoCloseBefore(open, close, lines, lineNum, charIndex, i, j)
    ensures NoCloseBefore(open, close, lines, lineNum, charIndex, i + 1, 0)
  {
    forall i', j' | i' < i + 1 || (i' == i + 1 && j' < 0)
      ensures !BracketClosesAt(open, close, lines, lineNum, charIndex, i', j')
    {
      if i' == i && j' >= j {
        assert !(j' < |lines[i]|);
      }
    }
  }

  lemma NoCloseAtAll(open: char, close: char, lines: seq<string>, lineNum: nat, charIndex: nat, i: int, j: int)
    requires 0 <= i && i + 1 == |lines| && |lines[i]| <= j
    requires NoCloseBefore(open, close, lines, lineNum, charIndex, i, j)
    ensures forall i', j' :: !BracketClosesAt(open, close, lines, lineNum, charIndex, i', j')
  {
    forall i', j' ensures !BracketClosesAt(open, close, lines, lineNum, charIndex, i', j') {
      if i' == i && j' >= j {
        assert !(j' < |lines[i]|);
      }
    }
  }

  lemma ThroughStep(open: char, close: char, lines: seq<string>, lineNum: nat, charIndex: nat, i: nat, j: nat)
    requires lineNum <= i < |lines| && LineStart(lineNum, charIndex, i) <= j < |lines[i]|
    ensures Net(open, close, ScannedThrough(lines, lineNum, charIndex, i, j))
      == Net(open, close, ScannedBefore(lines, lineNum, charIndex, i) + lines[i][LineStart(lineNum, charIndex, i)..j])
         + (if lines[i][j] == open then 1 else if lines[i][j] == close then -1 else 0)
  {
    var start := LineStart(lineNum, charIndex, i);
    var before := ScannedBefore(lines, lineNum, charIndex, i);
    assert lines[i][start..j + 1] == lines[i][start..j] + [lines[i][j]];
    assert before + lines[i][start..j + 1] == (before + lines[i][start..j]) + [lines[i][j]];
    NetAppend(open, close, before + lines[i][start..j], [lines[i][j]]);
  }

  lemma LineStep(open: char, close: char, lines: seq<string>, lineNum: nat, charIndex: nat, i: nat, j: nat)
    requires lineNum <= i && i + 1 < |lines| && LineStart(lineNum, charIndex, i) <= j
    requires |lines[i]| <= j
    requires j <= |lines[i]| || (i == lineNum && j == charIndex)
    ensures Net(open, close, ScannedBefore(lines, lineNum, charIndex, i + 1) + lines[i + 1][LineStart(lineNum, charIndex, i + 1)..0])
      == Net(open, close, ScannedBefore(lines, lineNum, charIndex, i)
                        + (if j <= |lines[i]| then lines[i][LineStart(lineNum, charIndex, i)..j] else ""))
  {
    var start := LineStart(lineNum, charIndex, i);
    var before := ScannedBefore(lines, lineNum, charIndex, i);
    assert lines[i + 1][0..0] == "";
    if j <= |lines[i]| {
      assert j == |lines[i]|;
      assert Skip(lines[i], start) == lines[i][start..j];
    } else {
      assert Skip(lines[i], start) == "";
    }
    assert ScannedBefore(lines, lineNum, charIndex, i + 1) + "" == ScannedBefore(lines, lineNum, charIndex, i + 1);
  }
}
