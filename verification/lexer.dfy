/** The expression tokeniser: one left-to-right pass that splits an
    expression into operators, brackets, string literals, calls and plain
    words (src/transpiler/parser.go, the first loop of parseExpression). */
module Lexer {
  import opened Results
  import opened Tokens
  import opened GoText

  /** Characters that end a plain word or start a token of their own. */
  predicate IsSpecial(c: char) {
    c in {'"', '(', '{', ')', '}', '+', '-', '*', '/', '&', '|', '=', '!', '<', '>', ' '}
  }

  /** A non-empty run of ordinary characters (tabs included: only the space
      character separates tokens). */
  predicate IsWord(s: string) {
    |s| > 0 && forall i :: 0 <= i < |s| ==> !IsSpecial(s[i])
  }

  predicate IsBracketToken(t: string) {
    t == "(" || t == ")" || t == "{" || t == "}"
  }

  /** A double-quoted literal with no quote inside. */
  predicate IsQuoted(t: string) {
    |t| >= 2 && t[0] == '"' && t[|t| - 1] == '"'
    && forall i :: 0 < i < |t| - 1 ==> t[i] != '"'
  }

  function ParenValue(c: char): int {
    if c == '(' then 1 else if c == ')' then -1 else 0
  }

  /** Opening minus closing round brackets. */
  function ParenNet(s: string): int
    decreases |s|
  {
    if |s| == 0 then 0 else ParenNet(s[..|s| - 1]) + ParenValue(s[|s| - 1])
  }

  /** The call scan from index `k` with round-bracket count `n`: the first
      index after which the count is zero, or `|s|` when there is none. */
  function GroupEnd(s: string, k: nat, n: int): (r: nat)
    requires k <= |s|
    ensures k <= r <= |s|
    decreases |s| - k
  {
    if k == |s| then k
    else if n + ParenValue(s[k]) == 0 then k
    else GroupEnd(s, k + 1, n + ParenValue(s[k]))
  }

  /** A bracket group read by the call scan: the scan stops at its last
      character.  A `{` is a group by itself, since only round brackets are
      counted. */
  predicate IsGroup(g: string) {
    |g| > 0 && GroupEnd(g, 0, 0) == |g| - 1
  }

  /** The length of the leading run of ordinary characters from `i`. */
  function NameEnd(t: string, i: nat): (r: nat)
    requires i <= |t|
    ensures i <= r <= |t|
    decreases |t| - i
  {
    if i == |t| || IsSpecial(t[i]) then i else NameEnd(t, i + 1)
  }

  /** A name glued to a bracket group, such as `add(1, 2)`. */
  predicate IsCall(t: string) {
    var k := NameEnd(t, 0);
    0 < k < |t| && (t[k] == '(' || t[k] == '{') && IsGroup(t[k..])
  }

  /** Every token the tokeniser can emit has one of these shapes. */
  predicate TokenShape(t: string) {
    IsOperator(t) || IsBracketToken(t) || IsWord(t) || IsQuoted(t) || IsCall(t)
  }

  function BracketValue(t: string): int {
    if t == "(" || t == "{" then 1 else if t == ")" || t == "}" then -1 else 0
  }

  /** Opening minus closing bracket tokens. */
  function BracketNet(ts: seq<string>): int
    decreases |ts|
  {
    if |ts| == 0 then 0 else BracketNet(ts[..|ts| - 1]) + BracketValue(ts[|ts| - 1])
  }

  /** The first index at or after `k` holding a quote, or `|s|`. */
  function QuoteFrom(s: string, k: nat): (r: nat)
    requires k <= |s|
    ensures k <= r <= |s| && (r < |s| ==> s[r] == '"')
    ensures forall j :: k <= j < r ==> s[j] != '"'
    decreases |s| - k
  {
    if k == |s| || s[k] == '"' then k else QuoteFrom(s, k + 1)
  }

  /** Push the word read so far, if there is one. */
  function Flush(parsed: seq<string>, cur: string): seq<string> {
    if cur != "" then parsed + [cur] else parsed
  }

  /** The tokeniser's state between characters: the unread rest of the
      expression, the tokens emitted, the word being read and the bracket
      count. */
  datatype LexState = LexState(rest: string, parsed: seq<string>, cur: string, count: int)

  /** Every token of `ts` is well shaped, stated from the last token back. */
  predicate AllShaped(ts: seq<string>)
    decreases |ts|
  {
    |ts| == 0 || (AllShaped(ts[..|ts| - 1]) && TokenShape(ts[|ts| - 1]))
  }

  lemma {:induction false} AllShapedEach(ts: seq<string>)
    requires AllShaped(ts)
    ensures forall i :: 0 <= i < |ts| ==> TokenShape(ts[i]) && |ts[i]| > 0
    decreases |ts|
  {
    if |ts| > 0 {
      var front := ts[..|ts| - 1];
      AllShapedEach(front);
      assert forall i :: 0 <= i < |front| ==> ts[i] == front[i];
    }
  }

  /** The invariant of the tokeniser's state. */
  predicate Lexable(st: LexState) {
    AllShaped(st.parsed) && (st.cur == "" || IsWord(st.cur)) && st.count == BracketNet(st.parsed)
  }

  /** The tokeniser: one step per character (or per literal, call or
      two-character operator) until the input is used up, then the bracket
      check. */
  function Lex(st: LexState, line: int): (r: Result<seq<string>>)
    ensures r.Err? ==> r.line == line
    decreases |st.rest|
  {
    if |st.rest| == 0 then
      if st.count != 0 then Err(line, "invalid brackets in expression") else Ok(st.parsed)
    else
      match Step(st, line)
      case Err(l, m) => Err(l, m)
      case Ok(next) => Lex(next, line)
  }

  /** What the tokeniser does with the next character of `st.rest`. */
  function Step(st: LexState, line: int): (r: Result<LexState>)
    requires |st.rest| > 0
    ensures r.Ok? ==> |r.value.rest| < |st.rest|
    ensures r.Err? ==> r.line == line
  {
    var c := st.rest[0];
    if c == '"' || c == '(' || c == '{' || c == ')' || c == '}' then StepBracket(st, line)
    else if c == '+' || c == '-' || c == '*' || c == '/' || c == '&' || c == '|' || c == '='
         || c == '!' || c == '<' || c == '>' then StepOperator(st, line)
    else if c == ' ' then
      Ok(LexState(st.rest[1..], Flush(st.parsed, st.cur), "", st.count))
    else if |st.rest| == 1 then
      Ok(LexState(st.rest[1..], st.parsed + [st.cur + [c]], st.cur + [c], st.count))
    else
      Ok(LexState(st.rest[1..], st.parsed, st.cur + [c], st.count))
  }

  /** A string literal, a call, or a bracket.  A literal does not end the
      word being read. */
  function StepBracket(st: LexState, line: int): (r: Result<LexState>)
    requires |st.rest| > 0
    ensures r.Ok? ==> |r.value.rest| < |st.rest|
    ensures r.Err? ==> r.line == line
    ensures st.rest[0] == '"' ==> (r.Err? <==> QuoteFrom(st.rest, 1) == |st.rest|)
    ensures (st.rest[0] == '(' || st.rest[0] == '{') && st.cur != "" ==>
      (r.Err? <==> GroupEnd(st.rest, 0, 0) == |st.rest|)
    ensures st.rest[0] != '"' && (st.cur == "" || (st.rest[0] != '(' && st.rest[0] != '{')) ==> r.Ok?
  {
    var rest, c := st.rest, st.rest[0];
    if c == '"' then
      var k := QuoteFrom(rest, 1);
      if k == |rest| then Err(line, "unterminated string literal in expression")
      else Ok(LexState(rest[k + 1..], st.parsed + [rest[..k + 1]], st.cur, st.count))
    else if c == '(' || c == '{' then
      if st.cur != "" then
        var k := GroupEnd(rest, 0, 0);
        if k == |rest| then Err(line, "bracket opened but never closed")
        else Ok(LexState(rest[k + 1..], st.parsed + [st.cur + rest[..k + 1]], "", st.count))
      else
        Ok(LexState(rest[1..], st.parsed + [[c]], "", st.count + 1))
    else
      Ok(LexState(rest[1..], Flush(st.parsed, st.cur) + [[c]], "", st.count - 1))
  }

  /** An operator: `+ - * /` alone, `& | =` doubled, `! < >` alone or
      followed by `=`. */
  function StepOperator(st: LexState, line: int): (r: Result<LexState>)
    requires |st.rest| > 0
    ensures r.Ok? ==> |r.value.rest| < |st.rest|
    ensures r.Err? ==> r.line == line
    ensures st.rest[0] in {'+', '-', '*', '/'} ==> r.Ok?
    ensures st.rest[0] in {'&', '|', '='} ==>
      (r.Err? <==> |st.rest| == 1 || st.rest[1] != st.rest[0])
    ensures st.rest[0] in {'!', '<', '>'} ==> (r.Err? <==> |st.rest| == 1)
  {
    var rest, c := st.rest, st.rest[0];
    var flushed := Flush(st.parsed, st.cur);
    if c == '+' || c == '-' || c == '*' || c == '/' then
      Ok(LexState(rest[1..], flushed + [[c]], "", st.count))
    else if c == '&' || c == '|' || c == '=' then
      if |rest| == 1 then Err(line, "use of invalid operator in expression")
      else if rest[1] == c then Ok(LexState(rest[2..], flushed + [[c, c]], "", st.count))
      else Err(line, "use of invalid operator in expression")
    else if |rest| == 1 then Err(line, "operator found at end of expression with no value after")
    else if rest[1] == '=' then Ok(LexState(rest[2..], flushed + [[c, '=']], "", st.count))
    else Ok(LexState(rest[1..], flushed + [[c]], "", st.count))
  }

  // ---------------------------------------------------------------------
  // What the tokeniser emits

  /** Every emitted token is well shaped and non-empty, and a successful
      run has balanced brackets. */
  lemma {:induction false} LexShapes(st: LexState, line: int)
    requires Lexable(st)
    ensures Lex(st, line).Ok? ==> AllShaped(Lex(st, line).value)
    ensures Lex(st, line).Ok? ==> BracketNet(Lex(st, line).value) == 0
    decreases |st.rest|
  {
    if |st.rest| > 0 {
      StepKeepsShapes(st, line);
      if Step(st, line).Ok? {
        LexShapes(Step(st, line).value, line);
      }
    }
  }

  lemma StepKeepsShapes(st: LexState, line: int)
    requires Lexable(st) && |st.rest| > 0
    ensures Step(st, line).Ok? ==> Lexable(Step(st, line).value)
  {
    var c := st.rest[0];
    if c == '"' || c == '(' || c == '{' || c == ')' || c == '}' {
      assert Step(st, line) == StepBracket(st, line);
      BracketKeepsShapes(st, line);
    } else if c == '+' || c == '-' || c == '*' || c == '/' || c == '&' || c == '|' || c == '='
         || c == '!' || c == '<' || c == '>' {
      assert Step(st, line) == StepOperator(st, line);
      OperatorKeepsShapes(st, line);
    } else if c == ' ' {
      FlushShape(st.parsed, st.cur);
    } else {
      assert !IsSpecial(c);
      WordSnoc(st.cur, c);
      if |st.rest| == 1 {
        WordHasNoBracket(st.cur + [c]);
        PushShape(st.parsed, st.cur + [c]);
      }
    }
  }

  lemma WordSnoc(cur: string, c: char)
    requires (cur == "" || IsWord(cur)) && !IsSpecial(c)
    ensures IsWord(cur + [c])
  {
    assert forall i :: 0 <= i < |cur| ==> (cur + [c])[i] == cur[i];
  }

  lemma BracketKeepsShapes(st: LexState, line: int)
    requires Lexable(st) && |st.rest| > 0
    requires st.rest[0] in {'"', '(', '{', ')', '}'}
    ensures StepBracket(st, line).Ok? ==> Lexable(StepBracket(st, line).value)
  {
    var rest, c := st.rest, st.rest[0];
    if c == '"' {
      QuoteKeepsShapes(st, line);
    } else if (c == '(' || c == '{') && st.cur != "" {
      CallKeepsShapes(st, line);
    } else if c == '(' || c == '{' {
      PushShape(st.parsed, [c]);
    } else {
      FlushShape(st.parsed, st.cur);
      PushShape(Flush(st.parsed, st.cur), [c]);
    }
  }

  lemma QuoteKeepsShapes(st: LexState, line: int)
    requires Lexable(st) && |st.rest| > 0 && st.rest[0] == '"'
    ensures StepBracket(st, line).Ok? ==> Lexable(StepBracket(st, line).value)
  {
    var k := QuoteFrom(st.rest, 1);
    if k < |st.rest| {
      assert IsQuoted(st.rest[..k + 1]);
      PushShape(st.parsed, st.rest[..k + 1]);
    }
  }

  lemma CallKeepsShapes(st: LexState, line: int)
    requires Lexable(st) && |st.rest| > 0 && (st.rest[0] == '(' || st.rest[0] == '{') && st.cur != ""
    ensures StepBracket(st, line).Ok? ==> Lexable(StepBracket(st, line).value)
  {
    var k := GroupEnd(st.rest, 0, 0);
    if k < |st.rest| {
      GroupEndPrefix(st.rest, 0, 0, k);
      CallShape(st.cur, st.rest[..k + 1]);
      PushShape(st.parsed, st.cur + st.rest[..k + 1]);
    }
  }

  lemma CallShape(name: string, g: string)
    requires IsWord(name) && IsGroup(g) && (g[0] == '(' || g[0] == '{')
    ensures IsCall(name + g)
  {
    NameEndOfCall(name, g, 0);
    assert (name + g)[|name|..] == g;
  }

  lemma {:induction false} NameEndOfCall(name: string, g: string, i: nat)
    requires IsWord(name) && |g| > 0 && IsSpecial(g[0]) && i <= |name|
    ensures NameEnd(name + g, i) == |name|
    decreases |name| - i
  {
    if i < |name| {
      assert (name + g)[i] == name[i];
      NameEndOfCall(name, g, i + 1);
    } else {
      assert (name + g)[i] == g[0];
    }
  }

  /** The scan stops at the same place in a prefix that reaches its stop. */
  lemma {:induction false} GroupEndPrefix(s: string, k: nat, n: int, r: nat)
    requires k <= r < |s| && GroupEnd(s, k, n) == r
    ensures GroupEnd(s[..r + 1], k, n) == r
    decreases |s| - k
  {
    assert s[..r + 1][k] == s[k];
    if n + ParenValue(s[k]) != 0 {
      GroupEndPrefix(s, k + 1, n + ParenValue(s[k]), r);
    }
  }

  lemma OperatorKeepsShapes(st: LexState, line: int)
    requires Lexable(st) && |st.rest| > 0
    requires st.rest[0] in {'+', '-', '*', '/', '&', '|', '=', '!', '<', '>'}
    ensures StepOperator(st, line).Ok? ==> Lexable(StepOperator(st, line).value)
  {
    var rest, c := st.rest, st.rest[0];
    var flushed := Flush(st.parsed, st.cur);
    FlushShape(st.parsed, st.cur);
    if c == '+' || c == '-' || c == '*' || c == '/' {
      OperatorSpellings(c);
      PushShape(flushed, [c]);
    } else if c == '&' || c == '|' || c == '=' {
      if |rest| > 1 && rest[1] == c {
        OperatorSpellings(c);
        PushShape(flushed, [c, c]);
      }
    } else if |rest| > 1 {
      OperatorSpellings(c);
      if rest[1] == '=' {
        PushShape(flushed, [c, '=']);
      } else {
        PushShape(flushed, [c]);
      }
    }
  }

  /** The operator tokens the tokeniser builds from each character. */
  lemma OperatorSpellings(c: char)
    ensures c in {'+', '-', '*', '/', '!', '<', '>'} ==> IsOperator([c]) && BracketValue([c]) == 0
    ensures c in {'&', '|', '='} ==> IsOperator([c, c]) && BracketValue([c, c]) == 0
    ensures c in {'!', '<', '>'} ==> IsOperator([c, '=']) && BracketValue([c, '=']) == 0
  {
    if c == '+' { assert [c] == "+"; }
    else if c == '-' { assert [c] == "-"; }
    else if c == '*' { assert [c] == "*"; }
    else if c == '/' { assert [c] == "/"; }
    else if c == '!' { assert [c] == "!"; assert [c, '='] == "!="; }
    else if c == '<' { assert [c] == "<"; assert [c, '='] == "<="; }
    else if c == '>' { assert [c] == ">"; assert [c, '='] == ">="; }
    else if c == '&' { assert [c, c] == "&&"; }
    else if c == '|' { assert [c, c] == "||"; }
    else if c == '=' { assert [c, c] == "=="; }
  }

  /** Appending one well-shaped token keeps the bracket count in step. */
  lemma PushShape(parsed: seq<string>, t: string)
    requires TokenShape(t)
    ensures BracketNet(parsed + [t]) == BracketNet(parsed) + BracketValue(t)
    ensures AllShaped(parsed) ==> AllShaped(parsed + [t])
  {
    assert (parsed + [t])[..|parsed|] == parsed;
  }

  /** Flushing a word never moves the bracket count. */
  lemma FlushShape(parsed: seq<string>, cur: string)
    requires cur == "" || IsWord(cur)
    ensures BracketNet(Flush(parsed, cur)) == BracketNet(parsed)
    ensures AllShaped(parsed) ==> AllShaped(Flush(parsed, cur))
  {
    if cur != "" {
      WordHasNoBracket(cur);
      PushShape(parsed, cur);
    }
  }

  lemma WordHasNoBracket(w: string)
    requires IsWord(w)
    ensures BracketValue(w) == 0
  {
    assert !IsSpecial(w[0]);
  }

  /** Splits `expr` into tokens.  Fails on an unterminated string literal,
      an unclosed call, a single `&`, `|` or `=`, a trailing `!`, `<` or
      `>`, and unbalanced brackets. */
  function Tokenize(expr: string, line: int): (r: Result<seq<string>>)
    ensures r.Ok? ==> forall i :: 0 <= i < |r.value| ==> TokenShape(r.value[i]) && |r.value[i]| > 0
    ensures r.Ok? ==> BracketNet(r.value) == 0
    ensures r.Err? ==> r.line == line
  {
    LexShapes(LexState(expr, [], "", 0), line);
    var r := Lex(LexState(expr, [], "", 0), line);
    if r.Ok? then AllShapedEach(r.value); r else r
  }

  // ---------------------------------------------------------------------
  // What the tokeniser rejects

  /** A step that fails ends the scan with that step's error. */
  lemma StepErrorEndsScan(st: LexState, line: int)
    requires |st.rest| > 0 && Step(st, line).Err?
    ensures Lex(st, line).Err? && Lex(st, line).msg == Step(st, line).msg
  {
  }

  /** At the end of the input the scan succeeds exactly when the bracket
      count is back at zero, with the tokens emitted so far. */
  lemma EndOfScan(st: LexState, line: int)
    requires |st.rest| == 0
    ensures Lex(st, line).Ok? <==> st.count == 0
    ensures Lex(st, line).Ok? ==> Lex(st, line).value == st.parsed
  {
  }

  /** Tokens, each followed by one space. */
  function Spaced(ts: seq<string>): string
    decreases |ts|
  {
    if |ts| == 0 then "" else ts[0] + " " + Spaced(ts[1..])
  }

  /** The state after a spaced list of tokens: the tokens emitted, and
      the count moved by their brackets. */
  function SpacedEnd(ts: seq<string>, more: string, st: LexState): LexState {
    LexState(more, st.parsed + ts, "", st.count + BracketNet(ts))
  }

  /** The state after the first token of a spaced list and its space. */
  function SpacedNext(ts: seq<string>, more: string, st: LexState): LexState
    requires |ts| > 0
  {
    LexState(Spaced(ts[1..]) + more, st.parsed + [ts[0]], "", st.count + BracketValue(ts[0]))
  }

  /** Simple tokens, each followed by a space, are emitted as themselves,
      whatever comes after them. */
  lemma {:induction false} LexSpacedList(ts: seq<string>, more: string, st: LexState, line: int)
    requires AllSimple(ts) && Lexable(st) && st.cur == "" && st.rest == Spaced(ts) + more
    ensures Lexable(SpacedEnd(ts, more, st))
    ensures Lex(st, line) == Lex(SpacedEnd(ts, more, st), line)
    decreases |ts|
  {
    if |ts| == 0 {
      NoneSpaced(ts, more, st);
    } else {
      LexSpacedHead(ts, more, st, line);
      LexSpacedList(ts[1..], more, SpacedNext(ts, more, st), line);
      SpacedEndStep(ts, more, st);
    }
  }

  lemma NoneSpaced(ts: seq<string>, more: string, st: LexState)
    requires |ts| == 0 && st.cur == "" && st.rest == Spaced(ts) + more
    ensures SpacedEnd(ts, more, st) == st
  {
    assert Spaced(ts) + more == more;
  }

  /** Reading the rest of the list from the state after the first token
      ends where reading the whole list does. */
  lemma SpacedEndStep(ts: seq<string>, more: string, st: LexState)
    requires |ts| > 0
    ensures SpacedEnd(ts[1..], more, SpacedNext(ts, more, st)) == SpacedEnd(ts, more, st)
  {
    BracketNetCons(ts[0], ts[1..]);
    assert [ts[0]] + ts[1..] == ts;
    ConsAppend(st.parsed, ts);
  }

  /** The first token of a spaced list and its space. */
  lemma LexSpacedHead(ts: seq<string>, more: string, st: LexState, line: int)
    requires |ts| > 0 && AllSimple(ts) && Lexable(st) && st.cur == "" && st.rest == Spaced(ts) + more
    ensures Lexable(SpacedNext(ts, more, st)) && AllSimple(ts[1..])
    ensures Lex(st, line) == Lex(SpacedNext(ts, more, st), line)
  {
    var t := ts[0];
    assert st.rest == t + " " + (Spaced(ts[1..]) + more);
    LexSpaced(t, Spaced(ts[1..]) + more, st, line);
  }

  /** The input `Spaced(ts) + bad` is tokenised by reading `ts` and then
      scanning `bad` with the count the tokens of `ts` leave. */
  lemma AfterSpaced(ts: seq<string>, bad: string, line: int)
    requires forall i :: 0 <= i < |ts| ==> Simple(ts[i])
    ensures Lexable(LexState(bad, ts, "", BracketNet(ts)))
    ensures Tokenize(Spaced(ts) + bad, line) == Lex(LexState(bad, ts, "", BracketNet(ts)), line)
  {
    AllSimpleFromEach(ts);
    var st := LexState(Spaced(ts) + bad, [], "", 0);
    assert Lexable(st) by {
      assert BracketNet([]) == 0;
    }
    LexSpacedList(ts, bad, st, line);
    assert SpacedEnd(ts, bad, st) == LexState(bad, ts, "", BracketNet(ts)) by {
      assert [] + ts == ts;
    }
  }

  /** Simple tokens, each followed by a space, are read back as themselves
      exactly when their brackets balance; unbalanced brackets are an
      error. */
  lemma SpacedTokens(ts: seq<string>, line: int)
    requires forall i :: 0 <= i < |ts| ==> Simple(ts[i])
    ensures Tokenize(Spaced(ts), line).Ok? <==> BracketNet(ts) == 0
    ensures Tokenize(Spaced(ts), line).Ok? ==> Tokenize(Spaced(ts), line).value == ts
  {
    AfterSpaced(ts, "", line);
    assert Spaced(ts) + "" == Spaced(ts);
  }

  /** After any simple tokens, a single `&`, `|` or `=` that is not
      doubled is an error. */
  lemma UnpairedOperatorRejected(ts: seq<string>, c: char, more: string, line: int)
    requires forall i :: 0 <= i < |ts| ==> Simple(ts[i])
    requires c in {'&', '|', '='} && (|more| == 0 || more[0] != c)
    ensures Tokenize(Spaced(ts) + [c] + more, line).Err?
  {
    var bad := [c] + more;
    AfterSpaced(ts, bad, line);
    ConcatAssoc(Spaced(ts), [c], more);
    OperatorFails(LexState(bad, ts, "", BracketNet(ts)), line);
  }

  /** After any simple tokens, a `!`, `<` or `>` that ends the expression
      is an error. */
  lemma TrailingOperatorRejected(ts: seq<string>, c: char, line: int)
    requires forall i :: 0 <= i < |ts| ==> Simple(ts[i])
    requires c in {'!', '<', '>'}
    ensures Tokenize(Spaced(ts) + [c], line).Err?
  {
    AfterSpaced(ts, [c], line);
    OperatorFails(LexState([c], ts, "", BracketNet(ts)), line);
  }

  lemma ConcatAssoc(a: string, b: string, c: string)
    ensures a + b + c == a + (b + c)
  {
  }

  /** An operator the step refuses ends the scan in an error. */
  lemma OperatorFails(st: LexState, line: int)
    requires |st.rest| > 0
    requires (st.rest[0] in {'&', '|', '='} && (|st.rest| == 1 || st.rest[1] != st.rest[0]))
          || (st.rest[0] in {'!', '<', '>'} && |st.rest| == 1)
    ensures Lex(st, line).Err?
  {
    OperatorStepIs(st, line);
    StepErrorEndsScan(st, line);
  }

  lemma OperatorStepIs(st: LexState, line: int)
    requires |st.rest| > 0 && st.rest[0] in {'&', '|', '=', '!', '<', '>'}
    ensures Step(st, line) == StepOperator(st, line)
  {
  }

  /** After any simple tokens, a quote with no quote after it is an
      error. */
  lemma UnterminatedLiteralRejected(ts: seq<string>, more: string, line: int)
    requires forall i :: 0 <= i < |ts| ==> Simple(ts[i])
    requires !HasChar(more, '"')
    ensures Tokenize(Spaced(ts) + "\"" + more, line).Err?
  {
    var bad := "\"" + more;
    AfterSpaced(ts, bad, line);
    ConcatAssoc(Spaced(ts), "\"", more);
    assert bad[1..] == more;
    LiteralFails(LexState(bad, ts, "", BracketNet(ts)), line);
  }

  /** A quote with no closing quote ends the scan in an error. */
  lemma LiteralFails(st: LexState, line: int)
    requires |st.rest| > 0 && st.rest[0] == '"' && !HasChar(st.rest[1..], '"')
    ensures Lex(st, line).Err?
  {
    assert Step(st, line) == StepBracket(st, line);
    StepErrorEndsScan(st, line);
  }

  /** With the count above zero and no `)` left, the call scan runs to the
      end. */
  lemma {:induction false} GroupNeverCloses(s: string, k: nat, n: int)
    requires k <= |s| && n > 0
    requires forall j :: k <= j < |s| ==> s[j] != ')'
    ensures GroupEnd(s, k, n) == |s|
    decreases |s| - k
  {
    if k < |s| {
      assert ParenValue(s[k]) >= 0;
      GroupNeverCloses(s, k + 1, n + ParenValue(s[k]));
    }
  }

  /** A word is gathered into the current item, character by character,
      up to a special character. */
  lemma {:induction false} ReadWordInto(w: string, k: nat, rest: string, parsed: seq<string>, count: int, line: int)
    requires IsWord(w) && k <= |w| && |rest| > 0
    ensures Lex(LexState(w[k..] + rest, parsed, w[..k], count), line)
         == Lex(LexState(rest, parsed, w, count), line)
    decreases |w| - k
  {
    if k == |w| {
      assert w[..k] == w && w[k..] + rest == rest;
    } else {
      var st := LexState(w[k..] + rest, parsed, w[..k], count);
      assert st.rest[0] == w[k] && !IsSpecial(w[k]) && |st.rest| > 1;
      assert st.rest[1..] == w[k + 1..] + rest;
      assert w[..k] + [w[k]] == w[..k + 1];
      ReadWordInto(w, k + 1, rest, parsed, count, line);
    }
  }

  /** After any simple tokens, a name followed by `(` with no `)` after it
      is an unclosed call, which is an error. */
  lemma UnclosedCallRejected(ts: seq<string>, name: string, more: string, line: int)
    requires forall i :: 0 <= i < |ts| ==> Simple(ts[i])
    requires IsWord(name) && !HasChar(more, ')')
    ensures Tokenize(Spaced(ts) + name + "(" + more, line).Err?
  {
    var call := "(" + more;
    AfterSpaced(ts, name + call, line);
    assert Spaced(ts) + name + "(" + more == Spaced(ts) + (name + call) by {
      ConcatAssoc(Spaced(ts), name, call);
      ConcatAssoc(Spaced(ts) + name, "(", more);
    }
    assert call[0] == '(' && !HasChar(call[1..], ')') by {
      assert call[1..] == more;
    }
    CallAfterWord(name, call, ts, BracketNet(ts), line);
  }

  /** A word followed by a `(` that is never closed ends the scan in an
      error. */
  lemma CallAfterWord(name: string, call: string, parsed: seq<string>, count: int, line: int)
    requires IsWord(name) && |call| > 0 && call[0] == '(' && !HasChar(call[1..], ')')
    ensures Lex(LexState(name + call, parsed, "", count), line).Err?
  {
    ReadWordInto(name, 0, call, parsed, count, line);
    assert name[..0] == "" && name[0..] == name;
    CallFails(LexState(call, parsed, name, count), line);
  }

  /** A call whose `(` is never closed ends the scan in an error. */
  lemma CallFails(st: LexState, line: int)
    requires |st.rest| > 0 && st.rest[0] == '(' && st.cur != "" && !HasChar(st.rest[1..], ')')
    ensures Lex(st, line).Err?
  {
    forall j | 1 <= j < |st.rest| ensures st.rest[j] != ')' {
      assert st.rest[j] == st.rest[1..][j - 1];
    }
    GroupNeverCloses(st.rest, 1, 1);
    assert Step(st, line) == StepBracket(st, line);
    StepErrorEndsScan(st, line);
  }

  // ---------------------------------------------------------------------
  // Rendering and re-reading

  /** Tokens that survive being written out with spaces between them. */
  predicate Simple(t: string) {
    IsOperator(t) || IsBracketToken(t) || IsWord(t) || IsQuoted(t)
  }

  /** A token list as the Go renderer writes it back: joined with single
      spaces.  It reads back as the same list when every token is simple,
      the brackets balance, and the last token is not an operator that
      needs a following character. */
  lemma TokenizeJoin(ts: seq<string>, line: int)
    requires |ts| > 0 && forall i :: 0 <= i < |ts| ==> Simple(ts[i])
    requires BracketNet(ts) == 0
    requires ts[|ts| - 1] != "!" && ts[|ts| - 1] != "<" && ts[|ts| - 1] != ">"
    ensures Tokenize(Join(ts, " "), line) == Ok(ts)
  {
    AllSimpleFromEach(ts);
    LexJoin(ts, LexState(Join(ts, " "), [], "", 0), line);
    assert [] + ts == ts;
  }

  lemma {:induction false} LexJoin(ts: seq<string>, st: LexState, line: int)
    requires |ts| > 0 && AllSimple(ts)
    requires ts[|ts| - 1] != "!" && ts[|ts| - 1] != "<" && ts[|ts| - 1] != ">"
    requires Lexable(st) && st.cur == "" && st.rest == Join(ts, " ")
    requires st.count + BracketNet(ts) == 0
    ensures Lex(st, line) == Ok(st.parsed + ts)
    decreases |ts|, 1
  {
    if |ts| == 1 {
      BracketNetCons(ts[0], ts[1..]);
      assert [ts[0]] + ts[1..] == ts;
      LexLast(ts[0], st, line);
      assert ts == [ts[0]];
    } else {
      LexJoinMore(ts, st, line);
    }
  }

  /** The inductive step: the first token and its space are read, then the
      rest. */
  lemma {:induction false} LexJoinMore(ts: seq<string>, st: LexState, line: int)
    requires |ts| > 1 && AllSimple(ts)
    requires ts[|ts| - 1] != "!" && ts[|ts| - 1] != "<" && ts[|ts| - 1] != ">"
    requires Lexable(st) && st.cur == "" && st.rest == Join(ts, " ")
    requires st.count + BracketNet(ts) == 0
    ensures Lex(st, line) == Ok(st.parsed + ts)
    decreases |ts|, 0
  {
    var next := AfterFirst(ts, st);
    FirstTokenRead(ts, st, line);
    LexJoin(ts[1..], next, line);
    ConsAppend(st.parsed, ts);
  }

  /** Splitting off the head of a non-empty sequence and appending it back. */
  lemma ConsAppend<T>(p: seq<T>, ts: seq<T>)
    requires |ts| > 0
    ensures p + [ts[0]] + ts[1..] == p + ts
  {
    assert [ts[0]] + ts[1..] == ts;
  }

  /** The state after the first token of a joined list and its space. */
  function AfterFirst(ts: seq<string>, st: LexState): LexState
    requires |ts| > 0
  {
    LexState(Join(ts[1..], " "), st.parsed + [ts[0]], "", st.count + BracketValue(ts[0]))
  }

  /** Reading the first token and the space after it. */
  lemma FirstTokenRead(ts: seq<string>, st: LexState, line: int)
    requires |ts| > 1 && AllSimple(ts)
    requires Lexable(st) && st.cur == "" && st.rest == Join(ts, " ")
    requires st.count + BracketNet(ts) == 0
    ensures Lexable(AfterFirst(ts, st)) && Lex(st, line) == Lex(AfterFirst(ts, st), line)
    ensures AfterFirst(ts, st).count + BracketNet(ts[1..]) == 0
    ensures AllSimple(ts[1..]) && ts[1..][|ts| - 2] == ts[|ts| - 1]
  {
    BracketNetCons(ts[0], ts[1..]);
    assert [ts[0]] + ts[1..] == ts;
    LexSpaced(ts[0], Join(ts[1..], " "), st, line);
  }

  /** `Simple` for every token, stated one token at a time. */
  predicate AllSimple(ts: seq<string>)
    decreases |ts|
  {
    |ts| == 0 || (Simple(ts[0]) && AllSimple(ts[1..]))
  }

  lemma {:induction false} AllSimpleFromEach(ts: seq<string>)
    requires forall i :: 0 <= i < |ts| ==> Simple(ts[i])
    ensures AllSimple(ts)
    decreases |ts|
  {
    if |ts| > 0 {
      assert forall i :: 0 <= i < |ts[1..]| ==> ts[1..][i] == ts[i + 1];
      AllSimpleFromEach(ts[1..]);
    }
  }

  lemma {:induction false} BracketNetCons(t: string, ts: seq<string>)
    ensures BracketNet([t] + ts) == BracketValue(t) + BracketNet(ts)
    decreases |ts|
  {
    if |ts| == 0 {
      assert ([t] + ts)[..0] == [];
    } else {
      assert ([t] + ts)[..|ts|] == [t] + ts[..|ts| - 1];
      BracketNetCons(t, ts[..|ts| - 1]);
    }
  }

  /** One simple token followed by a space is emitted as itself. */
  lemma LexSpaced(t: string, more: string, st: LexState, line: int)
    requires Simple(t) && Lexable(st) && st.cur == "" && st.rest == t + " " + more
    ensures Lexable(LexState(more, st.parsed + [t], "", st.count + BracketValue(t)))
    ensures Lex(st, line) == Lex(LexState(more, st.parsed + [t], "", st.count + BracketValue(t)), line)
  {
    if IsWord(t) {
      WordHasNoBracket(t);
      LexWord(t, 0, more, st.parsed, st.count, line);
      assert t[..0] == "" && t[0..] == t;
    } else if IsQuoted(t) {
      QuotedSpaced(t, more, st, line);
    } else if IsBracketToken(t) {
      BracketSpaced(t, more, st, line);
    } else {
      OperatorSpaced(t, more, st, line);
    }
  }

  lemma QuotedSpaced(t: string, more: string, st: LexState, line: int)
    requires IsQuoted(t) && Lexable(st) && st.cur == "" && st.rest == t + " " + more
    ensures Lex(st, line) == Lex(LexState(more, st.parsed + [t], "", st.count), line)
  {
    var spaced := LexState(" " + more, st.parsed + [t], "", st.count);
    assert st.rest[|t| - 1] == '"';
    assert forall j :: 1 <= j < |t| - 1 ==> st.rest[j] == t[j];
    assert QuoteFrom(st.rest, 1) == |t| - 1;
    assert st.rest[..|t|] == t;
    assert st.rest[|t|..] == " " + more;
    assert BracketValue(t) == 0;
    assert Step(st, line) == Ok(spaced);
    assert (" " + more)[1..] == more;
    assert Step(spaced, line) == Ok(LexState(more, st.parsed + [t], "", st.count));
  }

  lemma BracketSpaced(t: string, more: string, st: LexState, line: int)
    requires IsBracketToken(t) && Lexable(st) && st.cur == "" && st.rest == t + " " + more
    ensures Lex(st, line) == Lex(LexState(more, st.parsed + [t], "", st.count + BracketValue(t)), line)
  {
    var spaced := LexState(" " + more, st.parsed + [t], "", st.count + BracketValue(t));
    assert [t[0]] == t && st.rest[1..] == " " + more;
    assert Step(st, line) == Ok(spaced);
    assert (" " + more)[1..] == more;
    assert Step(spaced, line) == Ok(LexState(more, st.parsed + [t], "", st.count + BracketValue(t)));
  }

  lemma OperatorSpaced(t: string, more: string, st: LexState, line: int)
    requires IsOperator(t) && Lexable(st) && st.cur == "" && st.rest == t + " " + more
    ensures Lex(st, line) == Lex(LexState(more, st.parsed + [t], "", st.count + BracketValue(t)), line)
  {
    var spaced := LexState(" " + more, st.parsed + [t], "", st.count);
    OperatorStep(t, " " + more, st, line);
    assert BracketValue(t) == 0;
    assert Lex(st, line) == Lex(spaced, line);
    assert (" " + more)[1..] == more;
    assert Step(spaced, line) == Ok(LexState(more, st.parsed + [t], "", st.count));
  }

  /** An operator token, followed by a character that does not fuse with
      it, is emitted whole. */
  lemma OperatorStep(t: string, more: string, st: LexState, line: int)
    requires IsOperator(t) && Lexable(st) && st.cur == "" && st.rest == t + more
    requires |more| > 0 && more[0] != '='
    ensures Step(st, line) == Ok(LexState(more, st.parsed + [t], "", st.count))
  {
    OperatorForms(t);
    if |t| == 1 {
      assert [t[0]] == t;
      assert st.rest[0] == t[0] && st.rest[1..] == more && st.rest[1] == more[0];
      if t[0] == '+' || t[0] == '-' || t[0] == '*' || t[0] == '/' {
        SoloStep(t[0], more, st, line);
      } else {
        FusingStep(t[0], more, st, line);
      }
    } else {
      assert st.rest[0] == t[0] && st.rest[1] == t[1] && st.rest[2..] == more;
      if t[1] == '=' && t[0] != '=' {
        assert [t[0], '='] == t;
        FusedStep(t[0], more, st, line);
      } else {
        assert [t[0], t[0]] == t;
        DoubledStep(t[0], more, st, line);
      }
    }
  }

  /** The operator table, by spelling. */
  lemma OperatorForms(t: string)
    requires IsOperator(t)
    ensures |t| == 1 ==> t[0] in {'+', '-', '*', '/', '!', '<', '>'}
    ensures |t| == 2 ==> (t[1] == '=' && t[0] in {'!', '<', '>', '='}) || (t[0] == t[1] && t[0] in {'&', '|'})
    ensures |t| == 1 || |t| == 2
  {
  }

  lemma SoloStep(c: char, more: string, st: LexState, line: int)
    requires c == '+' || c == '-' || c == '*' || c == '/'
    requires Lexable(st) && st.cur == "" && st.rest == [c] + more
    ensures Step(st, line) == Ok(LexState(more, st.parsed + [[c]], "", st.count))
  {
    assert st.rest[1..] == more;
  }

  lemma FusingStep(c: char, more: string, st: LexState, line: int)
    requires c == '!' || c == '<' || c == '>'
    requires Lexable(st) && st.cur == "" && st.rest == [c] + more && |more| > 0 && more[0] != '='
    ensures Step(st, line) == Ok(LexState(more, st.parsed + [[c]], "", st.count))
  {
    assert st.rest[1..] == more && st.rest[1] == more[0];
  }

  lemma FusedStep(c: char, more: string, st: LexState, line: int)
    requires c == '!' || c == '<' || c == '>' || c == '='
    requires Lexable(st) && st.cur == "" && st.rest == [c, '='] + more
    ensures Step(st, line) == Ok(LexState(more, st.parsed + [[c, '=']], "", st.count))
  {
    assert st.rest[2..] == more;
  }

  lemma DoubledStep(c: char, more: string, st: LexState, line: int)
    requires c == '&' || c == '|' || c == '='
    requires Lexable(st) && st.cur == "" && st.rest == [c, c] + more
    ensures Step(st, line) == Ok(LexState(more, st.parsed + [[c, c]], "", st.count))
  {
    assert st.rest[2..] == more;
  }

  /** A word is read character by character and flushed at the space. */
  lemma {:induction false} LexWord(w: string, k: nat, more: string, parsed: seq<string>, count: int, line: int)
    requires IsWord(w) && k <= |w|
    requires Lexable(LexState(w[k..] + " " + more, parsed, w[..k], count))
    requires Lexable(LexState(more, parsed + [w], "", count))
    ensures Lex(LexState(w[k..] + " " + more, parsed, w[..k], count), line)
         == Lex(LexState(more, parsed + [w], "", count), line)
    decreases |w| - k
  {
    var st := LexState(w[k..] + " " + more, parsed, w[..k], count);
    if k == |w| {
      assert w[..k] == w;
      WordHasNoBracket(w);
      assert st.rest == " " + more && st.rest[1..] == more;
    } else {
      assert st.rest[0] == w[k] && |st.rest| > 1;
      assert st.rest[1..] == w[k + 1..] + " " + more;
      assert w[..k] + [w[k]] == w[..k + 1];
      assert !IsSpecial(w[k]);
      LexWord(w, k + 1, more, parsed, count, line);
    }
  }

  /** The last token of the input is emitted as itself. */
  lemma LexLast(t: string, st: LexState, line: int)
    requires Simple(t) && Lexable(st) && st.cur == "" && st.rest == t
    requires t != "!" && t != "<" && t != ">"
    requires st.count + BracketValue(t) == 0
    ensures Lex(st, line) == Ok(st.parsed + [t])
  {
    if IsWord(t) {
      LexWordEnd(t, 0, st.parsed, st.count, line);
      assert t[..0] == "" && t[0..] == t;
    } else if IsQuoted(t) {
      LastQuoted(t, st, line);
    } else if IsBracketToken(t) {
      LastBracket(t, st, line);
    } else {
      LastOperator(t, st, line);
    }
  }

  lemma LastQuoted(t: string, st: LexState, line: int)
    requires IsQuoted(t) && Lexable(st) && st.cur == "" && st.rest == t && st.count == 0
    ensures Lex(st, line) == Ok(st.parsed + [t])
  {
    assert QuoteFrom(st.rest, 1) == |t| - 1;
    assert st.rest[..|t|] == t && st.rest[|t|..] == "";
    assert BracketValue(t) == 0;
    assert Step(st, line) == Ok(LexState("", st.parsed + [t], "", 0));
  }

  lemma LastBracket(t: string, st: LexState, line: int)
    requires IsBracketToken(t) && Lexable(st) && st.cur == "" && st.rest == t
    requires st.count + BracketValue(t) == 0
    ensures Lex(st, line) == Ok(st.parsed + [t])
  {
    assert [t[0]] == t && st.rest[1..] == "";
    assert Step(st, line) == Ok(LexState("", st.parsed + [t], "", 0));
  }

  lemma LastOperator(t: string, st: LexState, line: int)
    requires IsOperator(t) && Lexable(st) && st.cur == "" && st.rest == t && st.count == 0
    requires t != "!" && t != "<" && t != ">"
    ensures Lex(st, line) == Ok(st.parsed + [t])
  {
    OperatorForms(t);
    if |t| == 1 {
      assert [t[0]] + "" == t;
      SoloStep(t[0], "", st, line);
    } else if t[1] == '=' && t[0] != '=' {
      assert [t[0], '='] + "" == t;
      FusedStep(t[0], "", st, line);
    } else {
      assert [t[0], t[0]] + "" == t;
      DoubledStep(t[0], "", st, line);
    }
  }

  lemma {:induction false} LexWordEnd(w: string, k: nat, parsed: seq<string>, count: int, line: int)
    requires IsWord(w) && k < |w|
    requires Lexable(LexState(w[k..], parsed, w[..k], count)) && count == 0
    ensures Lex(LexState(w[k..], parsed, w[..k], count), line) == Ok(parsed + [w])
    decreases |w| - k
  {
    var st := LexState(w[k..], parsed, w[..k], count);
    assert st.rest[0] == w[k] && !IsSpecial(w[k]);
    assert w[..k] + [w[k]] == w[..k + 1];
    if k == |w| - 1 {
      assert w[..k + 1] == w;
      WordHasNoBracket(w);
    } else {
      assert st.rest[1..] == w[k + 1..];
      LexWordEnd(w, k + 1, parsed, count, line);
    }
  }
}
